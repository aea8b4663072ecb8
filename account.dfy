/** The account page's snippet list (`getSnippets`, `handleDelete`) and the
    strings it renders for each snippet: the code preview, the embed code and
    the edit link. The app-area account page runs the same two handlers and
    the same preview; only its edit link differs (module AppAccount). */
module Account {
  import opened Wrappers
  import opened Strings
  import opened Lists
  import opened Notifications
  import Query

  /** A row of `select('id, title, data->code')`. */
  datatype SnippetRow = SnippetRow(id: string, title: string, code: string)

  /** The query's answer, rows already in `updated_at`-descending order. */
  datatype FetchReply = FetchReply(rows: Option<seq<SnippetRow>>, error: Option<string>, status: int)

  datatype FetchOutcome = FetchSkipped | Fetched(userId: string, notice: Option<Notice>)
  datatype DeleteOutcome = DeleteSkipped | DeleteAttempted(id: string, notice: Notice)

  const PreviewLength := 200
  const Ellipsis := "..."

  const FetchFailed := Notice("Error getting snippets", "Please try again later.", "error")
  const DeleteFailed := Notice("Error deleting snippet", "Please try again later.", "error")
  const Deleted := Notice("Snippet deleted", "Your snippet has been deleted.", "success")

  /** `code.slice(0, 200)` followed by "..." when the code is longer. */
  function Preview(code: string): (r: string)
    ensures |r| <= PreviewLength + |Ellipsis|
    ensures |code| <= PreviewLength ==> r == code
    ensures |code| > PreviewLength ==> |r| == PreviewLength + |Ellipsis| && r[..PreviewLength] == code[..PreviewLength] && r[PreviewLength..] == Ellipsis
  {
    if |code| > PreviewLength then code[..PreviewLength] + Ellipsis else code
  }

  predicate KeepsRow(id: string, row: SnippetRow) { row.id != id }

  /** `prev.filter(snippet => snippet.id !== id)`. */
  function WithoutId(rows: seq<SnippetRow>, id: string): (r: seq<SnippetRow>)
    ensures forall k :: 0 <= k < |r| ==> r[k].id != id
    ensures forall row: SnippetRow :: row.id != id ==> multiset(r)[row] == multiset(rows)[row]
  {
    var r := Filter(rows, row => KeepsRow(id, row));
    forall row: SnippetRow | row.id != id ensures multiset(r)[row] == multiset(rows)[row] {
      FilterCount(rows, row => KeepsRow(id, row), row);
    }
    r
  }

  /** The rows that remain keep their order. */
  lemma WithoutIdKeepsOrder(a: seq<SnippetRow>, b: seq<SnippetRow>, id: string)
    ensures WithoutId(a + b, id) == WithoutId(a, id) + WithoutId(b, id)
  {
    FilterAppend(a, b, row => KeepsRow(id, row));
  }

  /** `/?edit=${id}`. */
  function EditLink(id: string): string {
    "/?edit=" + id
  }

  /** The editor's `searchParams.get("edit")` reads the id back out of the
      link, for any id that form decoding leaves alone and that does not
      end the pair or the query. */
  lemma EditLinkRoundTrip(id: string)
    requires '&' !in id && '#' !in id && '+' !in id && '%' !in id
    ensures Query.Get(Query.SearchOf(EditLink(id)), "edit") == Some(id)
  {
    Query.GetSingleParam(EditLink(id), "/", "edit", id);
  }

  const IframeAttributes := " width=\"100%\" height=\"400\" frameBorder=\"0\"></iframe>"

  /** The embed snippet: an iframe whose `src` is the public embed route. */
  function EmbedCode(origin: string, username: string, id: string): string {
    "<iframe src=\"" + EmbedSource(origin, username, id) + "\"" + IframeAttributes
  }

  function EmbedSource(origin: string, username: string, id: string): string {
    origin + "/embed/" + username + "/" + id
  }

  /** The iframe's `src` attribute reads back as origin + "/embed/" +
      username + "/" + id. */
  lemma EmbedCodeSource(origin: string, username: string, id: string)
    requires '"' !in origin && '"' !in username && '"' !in id
    ensures Field(EmbedCode(origin, username, id), "\"", 1) == Some(EmbedSource(origin, username, id))
  {
    var src := EmbedSource(origin, username, id);
    var tail := "\"" + IframeAttributes;
    assert '"' !in src;
    SecondPieceOf("<iframe src=", '"', src, tail);
    assert EmbedCode(origin, username, id) == "<iframe src=" + "\"" + src + tail;
  }

  /** The snippet list of an account page and the fields its handlers set. */
  class SnippetListPage {
    const user: Option<string>
    var snippets: seq<SnippetRow>
    var loading: bool
    var toDelete: Option<string>

    constructor (user: Option<string>)
      ensures this.user == user && snippets == [] && !loading && toDelete.None?
    {
      this.user := user;
      snippets, loading, toDelete := [], false, None;
    }

    /** `getSnippets`: nothing without a user or while loading; otherwise
        one query for the user's rows, which replace the list when rows come
        back and the error (if any) is a tolerated 406. */
    method GetSnippets(reply: FetchReply) returns (outcome: FetchOutcome)
      modifies this
      ensures user.None? || old(loading) ==>
        outcome == FetchSkipped && snippets == old(snippets) && loading == old(loading)
      ensures user.Some? && !old(loading) ==>
        && outcome == Fetched(user.value, if reply.error.Some? && reply.status != 406 then Some(FetchFailed) else None)
        && snippets == (if outcome.notice.None? && reply.rows.Some? then reply.rows.value else old(snippets))
        && !loading
      ensures toDelete == old(toDelete)
    {
      if user.None? || loading {
        return FetchSkipped;
      }
      loading := true;
      if reply.error.Some? && reply.status != 406 {
        outcome := Fetched(user.value, Some(FetchFailed));
      } else {
        if reply.rows.Some? {
          snippets := reply.rows.value;
        }
        outcome := Fetched(user.value, None);
      }
      loading := false;
    }

    /** A snippet's Delete button. */
    method SelectForDelete(id: string)
      modifies this
      ensures toDelete == Some(id) && snippets == old(snippets) && loading == old(loading)
    {
      toDelete := Some(id);
    }

    /** `handleDelete`: nothing without a selected id; otherwise one delete
        of that id. Success removes exactly the rows with that id; failure
        leaves the list alone. The selection is cleared after the attempt. */
    method HandleDelete(deleteError: Option<string>) returns (outcome: DeleteOutcome)
      modifies this
      ensures old(toDelete).None? || old(toDelete) == Some("") ==>
        outcome == DeleteSkipped && snippets == old(snippets) && toDelete == old(toDelete)
      ensures old(toDelete).Some? && old(toDelete) != Some("") ==>
        && outcome == DeleteAttempted(old(toDelete).value, if deleteError.Some? then DeleteFailed else Deleted)
        && snippets == (if deleteError.Some? then old(snippets) else WithoutId(old(snippets), old(toDelete).value))
        && toDelete.None?
      ensures loading == old(loading)
    {
      if toDelete.None? || toDelete == Some("") {
        return DeleteSkipped;
      }
      var id := toDelete.value;
      if deleteError.Some? {
        outcome := DeleteAttempted(id, DeleteFailed);
      } else {
        snippets := WithoutId(snippets, id);
        outcome := DeleteAttempted(id, Deleted);
      }
      toDelete := None;
    }
  }
}
