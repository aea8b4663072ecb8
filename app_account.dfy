/** The app-area account page. Its `getSnippets`, `handleDelete` and code
    preview are those of `Account.SnippetListPage` and `Account.Preview`;
    what differs is the edit link, which goes to the editor route. */
module AppAccount {
  import opened Wrappers
  import opened Strings
  import Account
  import Query

  /** `/editor/?edit=${id}`. */
  function EditLink(id: string): string {
    "/editor/?edit=" + id
  }

  /** The app link is the plain link moved under the editor route, and the
      editor's `searchParams.get("edit")` reads the same id out of it. */
  lemma EditLinkUnderEditor(id: string)
    requires '&' !in id && '#' !in id && '+' !in id && '%' !in id
    ensures EditLink(id) == "/editor" + Account.EditLink(id)
    ensures Query.Get(Query.SearchOf(EditLink(id)), "edit") == Some(id)
  {
    assert "/editor/?edit=" == "/editor" + "/?edit=" == "/editor/" + "?" + "edit" + "=";
    assert "/editor" + Account.EditLink(id) == ("/editor" + "/?edit=") + id;
    assert EditLink(id) == "/editor/" + "?" + "edit" + "=" + id;
    Query.GetSingleParam(EditLink(id), "/editor/", "edit", id);
  }
}
