/** The snippet editor (`Environment`): the package list, the suggested
    snippet name, and saving, where the owner updates the snippet in place
    and anyone else saves a copy of their own. The row store, navigation and
    `localStorage` are replaced by parameters and returned values; the notice
    a handler posts through `addMessage` is returned. */
module Environment {
  import opened Wrappers
  import opened Lists
  import opened Notifications

  datatype Snippet = Snippet(id: string, title: string, code: string, packages: seq<string>, userId: string)

  const StartCode := "# Welcome to BitMind Platform!"
  const CopySuffix := " - Copy"

  predicate NoDuplicates(xs: seq<string>) {
    forall i, j :: 0 <= i < j < |xs| ==> xs[i] != xs[j]
  }

  /** The updater `prev.includes(p) ? prev : [...prev, p]`. */
  function AddPackage(packages: seq<string>, p: string): (r: seq<string>)
    ensures p in packages ==> r == packages
    ensures packages <= r && |r| <= |packages| + 1
    ensures forall q :: q in r <==> q in packages || q == p
    ensures NoDuplicates(packages) ==> NoDuplicates(r)
  {
    if p in packages then packages else packages + [p]
  }

  predicate Differs(p: string, q: string) { q != p }

  /** The updater `prev.filter(q => q !== p)`. */
  function RemovePackage(packages: seq<string>, p: string): (r: seq<string>)
    ensures p !in r
    ensures forall q :: q != p ==> multiset(r)[q] == multiset(packages)[q]
  {
    var r := Filter(packages, q => Differs(p, q));
    forall q | q != p ensures multiset(r)[q] == multiset(packages)[q] {
      FilterCount(packages, q => Differs(p, q), q);
    }
    r
  }

  /** Removing keeps the other packages in their order. */
  lemma RemoveKeepsOrder(a: seq<string>, b: seq<string>, p: string)
    ensures RemovePackage(a + b, p) == RemovePackage(a, p) + RemovePackage(b, p)
  {
    FilterAppend(a, b, q => Differs(p, q));
  }

  /** Removing a package that was just added restores the list. */
  lemma RemoveUndoesAdd(packages: seq<string>, p: string)
    requires p !in packages
    ensures RemovePackage(AddPackage(packages, p), p) == packages
  {
    RemoveKeepsOrder(packages, [p], p);
    FilterKeepsAll(packages, q => Differs(p, q));
    assert RemovePackage([p], p) == [];
  }

  /** `snippet.user_id === user?.id`. */
  predicate OwnedBy(snippet: Snippet, user: Option<string>) {
    user.Some? && snippet.userId == user.value
  }

  /** The snippet-name effect: the title for the owner, a marked copy for
      anyone else, empty without a snippet. */
  function SuggestedName(snippet: Option<Snippet>, user: Option<string>): (r: string)
    ensures snippet.None? ==> r == ""
    ensures snippet.Some? ==> snippet.value.title <= r
    ensures snippet.Some? && OwnedBy(snippet.value, user) ==> r == snippet.value.title
    ensures snippet.Some? && !OwnedBy(snippet.value, user) ==> r[|snippet.value.title|..] == CopySuffix
  {
    match snippet
    case None => ""
    case Some(s) => if OwnedBy(s, user) then s.title else s.title + CopySuffix
  }

  /** `snippet?.code || savedInput || startCode`: the first non-empty one. */
  function InitialInput(snippet: Option<Snippet>, savedInput: Option<string>): (r: string)
    ensures r != ""
    ensures snippet.Some? && snippet.value.code != "" ==> r == snippet.value.code
    ensures (snippet.None? || snippet.value.code == "") && savedInput.Some? && savedInput.value != "" ==>
      r == savedInput.value
    ensures (snippet.None? || snippet.value.code == "") && (savedInput.None? || savedInput.value == "") ==>
      r == StartCode
  {
    if snippet.Some? && snippet.value.code != "" then snippet.value.code
    else if savedInput.Some? && savedInput.value != "" then savedInput.value
    else StartCode
  }

  /** A row-store write. */
  datatype StoreCall =
    | Update(id: string, title: string, code: string, packages: seq<string>)
    | Insert(userId: string, title: string, code: string, packages: seq<string>)

  /** The store's answer: an error message if any, the HTTP status, and the id
      of an inserted row. */
  datatype StoreReply = StoreReply(error: Option<string>, status: int, insertedId: Option<string>)

  /** `error && status !== 406`: a reply that is thrown. */
  predicate Fails(reply: StoreReply) {
    reply.error.Some? && reply.status != 406
  }

  /** The write `handleSave` issues for a signed-in user. */
  function SaveCall(user: string, snippet: Option<Snippet>, name: string, code: string, packages: seq<string>): (c: StoreCall)
    ensures snippet.Some? && snippet.value.userId == user <==> c.Update?
    ensures c.Update? ==> c.id == snippet.value.id
    ensures c.Insert? ==> c.userId == user
    ensures c.title == name && c.code == code && c.packages == packages
  {
    if snippet.Some? && snippet.value.userId == user then Update(snippet.value.id, name, code, packages)
    else Insert(user, name, code, packages)
  }

  const NotLoggedIn := "You must be logged in to save a snippet"
  const Saved := Notice("Snippet saved", "Your snippet has been saved successfully", "success")

  /** The catch block's notice: the error's message, or a fallback when empty. */
  function SaveError(message: string): (n: Notice)
    ensures n.kind == "error" && n.title == "Error saving snippet"
    ensures n.message != ""
    ensures message != "" ==> n.message == message
  {
    Notice("Error saving snippet", if message == "" then "Please try again later" else message, "error")
  }

  datatype SaveOutcome =
    | Skipped
    | Attempted(call: Option<StoreCall>, notice: Notice, navigateTo: Option<string>)

  /** What one save that is not skipped does: without a user only the
      not-logged-in notice; otherwise the store write, the notice its reply
      calls for, and after a successful insert the editor link of the new row. */
  function Attempt(user: Option<string>, snippet: Option<Snippet>, name: string, code: string,
                   packages: seq<string>, reply: StoreReply): (o: SaveOutcome)
    ensures o.Attempted?
    ensures user.None? ==> o == Attempted(None, SaveError(NotLoggedIn), None)
    ensures user.Some? ==> o.call == Some(SaveCall(user.value, snippet, name, code, packages))
    ensures user.Some? ==> o.notice == (if Fails(reply) then SaveError(reply.error.value) else Saved)
    ensures o.navigateTo.Some? <==>
      user.Some? && SaveCall(user.value, snippet, name, code, packages).Insert? && !Fails(reply) && reply.insertedId.Some?
    ensures o.navigateTo.Some? ==> o.navigateTo.value == "/?edit=" + reply.insertedId.value
  {
    if user.None? then Attempted(None, SaveError(NotLoggedIn), None)
    else
      var call := SaveCall(user.value, snippet, name, code, packages);
      if Fails(reply) then Attempted(Some(call), SaveError(reply.error.value), None)
      else
        var navigateTo := if call.Insert? && reply.insertedId.Some? then Some("/?edit=" + reply.insertedId.value) else None;
        Attempted(Some(call), Saved, navigateTo)
  }

  class EditorSession {
    const user: Option<string>
    const snippet: Option<Snippet>
    var input: string
    var packageInput: string
    var selectedPackages: seq<string>
    var snippetName: string
    var saveModalOpen: bool
    var packagesModalOpen: bool
    var isSaving: bool

    /** Mounting the editor, with the snippet-name effect already run. */
    constructor (user: Option<string>, snippet: Option<Snippet>, savedInput: Option<string>)
      ensures this.user == user && this.snippet == snippet
      ensures input == InitialInput(snippet, savedInput)
      ensures selectedPackages == (if snippet.Some? then snippet.value.packages else [])
      ensures snippetName == SuggestedName(snippet, user)
      ensures packageInput == "" && !saveModalOpen && !packagesModalOpen && !isSaving
    {
      this.user := user;
      this.snippet := snippet;
      input := InitialInput(snippet, savedInput);
      packageInput := "";
      selectedPackages := if snippet.Some? then snippet.value.packages else [];
      snippetName := SuggestedName(snippet, user);
      saveModalOpen, packagesModalOpen, isSaving := false, false, false;
    }

    /** The Reset button: back to the snippet's code, or the start code. */
    method Reset()
      modifies this
      ensures input == (if snippet.Some? && snippet.value.code != "" then snippet.value.code else StartCode)
      ensures packageInput == old(packageInput) && selectedPackages == old(selectedPackages)
      ensures snippetName == old(snippetName) && saveModalOpen == old(saveModalOpen)
      ensures packagesModalOpen == old(packagesModalOpen) && isSaving == old(isSaving)
    {
      input := if snippet.Some? && snippet.value.code != "" then snippet.value.code else StartCode;
    }

    /** The code editor's `onChange`: the text becomes the editor's value. */
    method SetInput(value: string)
      modifies this
      ensures input == value
      ensures packageInput == old(packageInput) && selectedPackages == old(selectedPackages)
      ensures snippetName == old(snippetName) && saveModalOpen == old(saveModalOpen)
      ensures packagesModalOpen == old(packagesModalOpen) && isSaving == old(isSaving)
    {
      input := value;
    }

    /** The package field's `onChange`. */
    method SetPackageInput(value: string)
      modifies this
      ensures packageInput == value
      ensures input == old(input) && selectedPackages == old(selectedPackages)
      ensures snippetName == old(snippetName) && saveModalOpen == old(saveModalOpen)
      ensures packagesModalOpen == old(packagesModalOpen) && isSaving == old(isSaving)
    {
      packageInput := value;
    }

    /** The name field's `onChange` in the save dialog. */
    method SetSnippetName(value: string)
      modifies this
      ensures snippetName == value
      ensures input == old(input) && packageInput == old(packageInput) && selectedPackages == old(selectedPackages)
      ensures saveModalOpen == old(saveModalOpen)
      ensures packagesModalOpen == old(packagesModalOpen) && isSaving == old(isSaving)
    {
      snippetName := value;
    }

    /** The Save button, shown only to a signed-in user: names an unnamed
        snippet "Untitled" and opens the save dialog. */
    method OpenSaveDialog()
      modifies this
      ensures user.None? ==> snippetName == old(snippetName) && saveModalOpen == old(saveModalOpen)
      ensures user.Some? ==> saveModalOpen && snippetName == (if old(snippetName) == "" then "Untitled" else old(snippetName))
      ensures input == old(input) && selectedPackages == old(selectedPackages) && packageInput == old(packageInput)
      ensures packagesModalOpen == old(packagesModalOpen) && isSaving == old(isSaving)
    {
      if user.Some? {
        if snippetName == "" {
          snippetName := "Untitled";
        }
        saveModalOpen := true;
      }
    }

    /** Enter in the package field. The field is disabled without a user or
        while saving, but not when it is empty. */
    method PressEnterInPackageField()
      modifies this
      ensures selectedPackages ==
        if user.None? || isSaving then old(selectedPackages) else AddPackage(old(selectedPackages), packageInput)
      ensures input == old(input) && packageInput == old(packageInput) && snippetName == old(snippetName)
      ensures saveModalOpen == old(saveModalOpen) && packagesModalOpen == old(packagesModalOpen) && isSaving == old(isSaving)
    {
      if user.Some? && !isSaving {
        selectedPackages := AddPackage(selectedPackages, packageInput);
      }
    }

    /** The Add button, disabled also while the field is empty. */
    method ClickAddPackage()
      modifies this
      ensures selectedPackages ==
        if packageInput == "" || user.None? || isSaving then old(selectedPackages)
        else AddPackage(old(selectedPackages), packageInput)
      ensures "" !in old(selectedPackages) ==> "" !in selectedPackages
      ensures input == old(input) && packageInput == old(packageInput) && snippetName == old(snippetName)
      ensures saveModalOpen == old(saveModalOpen) && packagesModalOpen == old(packagesModalOpen) && isSaving == old(isSaving)
    {
      if packageInput != "" && user.Some? && !isSaving {
        selectedPackages := AddPackage(selectedPackages, packageInput);
      }
    }

    /** A package's Remove button, disabled without a user or while saving. */
    method ClickRemovePackage(p: string)
      modifies this
      ensures selectedPackages ==
        if user.None? || isSaving then old(selectedPackages) else RemovePackage(old(selectedPackages), p)
      ensures input == old(input) && packageInput == old(packageInput) && snippetName == old(snippetName)
      ensures saveModalOpen == old(saveModalOpen) && packagesModalOpen == old(packagesModalOpen) && isSaving == old(isSaving)
    {
      if user.Some? && !isSaving {
        selectedPackages := RemovePackage(selectedPackages, p);
      }
    }

    /** `handleSave`: a no-op while a save is in flight; otherwise one store
        write (none without a user), one notice, a navigation to the new
        row after an insert, and in every case the dialog closed and
        `isSaving` reset. */
    method HandleSave(reply: StoreReply) returns (outcome: SaveOutcome)
      modifies this
      ensures old(isSaving) ==> outcome == Skipped && saveModalOpen == old(saveModalOpen) && isSaving
      ensures !old(isSaving) ==>
        outcome == Attempt(user, snippet, snippetName, input, selectedPackages, reply) && !saveModalOpen && !isSaving
      ensures input == old(input) && packageInput == old(packageInput) && selectedPackages == old(selectedPackages)
      ensures snippetName == old(snippetName) && packagesModalOpen == old(packagesModalOpen)
    {
      if isSaving {
        return Skipped;
      }
      isSaving := true;
      if user.None? {
        outcome := Attempted(None, SaveError(NotLoggedIn), None);
      } else {
        var call := SaveCall(user.value, snippet, snippetName, input, selectedPackages);
        if Fails(reply) {
          outcome := Attempted(Some(call), SaveError(reply.error.value), None);
        } else {
          var navigateTo := if call.Insert? && reply.insertedId.Some? then Some("/?edit=" + reply.insertedId.value) else None;
          outcome := Attempted(Some(call), Saved, navigateTo);
        }
      }
      saveModalOpen := false;
      isSaving := false;
    }

    /** `handleUpdatePackages`: saves (when signed in), then reloads the page;
        the packages dialog is closed in every case. */
    method HandleUpdatePackages(reply: StoreReply) returns (save: SaveOutcome, notice: Option<Notice>, reloaded: bool)
      modifies this
      ensures user.None? ==>
        (save == Skipped && !reloaded &&
         notice == Some(Notice("Error updating packages", "You must be logged in to update packages", "error")))
      ensures user.Some? ==> reloaded && notice.None?
      ensures user.Some? ==>
        save == (if old(isSaving) then Skipped else Attempt(user, snippet, snippetName, input, selectedPackages, reply))
      ensures saveModalOpen == (if user.Some? && !old(isSaving) then false else old(saveModalOpen))
      ensures !packagesModalOpen && isSaving == old(isSaving)
      ensures input == old(input) && selectedPackages == old(selectedPackages) && snippetName == old(snippetName)
      ensures packageInput == old(packageInput)
    {
      save, notice, reloaded := Skipped, None, false;
      if user.None? {
        notice := Some(Notice("Error updating packages", "You must be logged in to update packages", "error"));
      } else {
        save := HandleSave(reply);
        reloaded := true;
      }
      packagesModalOpen := false;
    }
  }
}
