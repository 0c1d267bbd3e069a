/** The terminal editor (`internal/ui/editor.go`): opening an entry in the form,
  * the title check that enables the Save button, saving (which refuses to
  * overwrite a different entry), the attachment-then-entry commit order, and the
  * choices of the collision prompt. The vault directory is a map from paths to
  * the (decrypted) entries stored there; encryption, protobuf encoding and the
  * widgets are not modelled. */
module Editor {
  import opened Wrappers
  import opened Text
  import opened Vault
  import opened DirTree
  import ImporterCommon
  import opened EditorCard
  import opened EditorLogin

  const TypeLogin := "Login"
  const TypeCard := "Card"
  const TypeNote := "Note"
  const TypeFile := "File"

  const TitleUnavailable := "title field unavailable"
  const TitleRequired := "title is required"
  const TitleInvalid := "title contains invalid characters"
  const TitleExists := "Title already exists. Please change the title."

  /** `validateTitleField`: the trimmed title, unless it is empty, holds one of
    * `<>:"/\|?*`, or is "." or "..". */
  function ValidateTitleField(field: Option<string>): (r: Result<string>)
    ensures field.None? ==> r == Err(TitleUnavailable)
    ensures field.Some? && TrimSpace(field.value) == "" ==> r == Err(TitleRequired)
    ensures r.Ok? ==>
      (field.Some? && r.value == TrimSpace(field.value) && r.value != "" &&
       !ContainsAny(r.value, ImporterCommon.Forbidden) && r.value != "." && r.value != "..")
    ensures r.Err? && field.Some? && TrimSpace(field.value) != "" ==> r == Err(TitleInvalid)
  {
    if field.None? then Err(TitleUnavailable)
    else
      var title := TrimSpace(field.value);
      if title == "" then Err(TitleRequired)
      else if ContainsAny(title, ImporterCommon.Forbidden) || title == "." || title == ".." then Err(TitleInvalid)
      else Ok(title)
  }

  /** The editor accepts a title as typed exactly when it is non-empty and the
    * importers' `sanitizeTitle` would leave it unchanged; the title accepted is
    * then accepted again as it is. */
  lemma ValidateTitleClean(t: string)
    ensures ValidateTitleField(Some(t)) == Ok(t) <==> t != "" && ImporterCommon.IsCleanTitle(t)
    ensures ValidateTitleField(Some(t)).Ok? ==>
      ValidateTitleField(Some(ValidateTitleField(Some(t)).value)) == ValidateTitleField(Some(t))
  {
    var s := TrimSpace(t);
    TrimByOfTrimmed(s, GoSpace);
  }

  /** The sub-directory of an entry type: "logins", "cards", ... */
  function SubDir(kind: string): (d: string)
    ensures HasSuffix(d, "s") && |d| == |kind| + 1
  {
    Lower(kind) + "s"
  }

  /** Where an entry of type `kind` titled `title` is stored. */
  function EntryPath(kind: string, title: string): (p: Path)
    ensures |p| == 2 && p[0] == SubDir(kind) && HasSuffix(p[1], ".pb")
  {
    [SubDir(kind), PlainName(title)]
  }

  /** The file system's answers: which steps of a save fail. */
  datatype Faults = Faults(
    mkdirFails: bool,
    unreadable: set<string>,          // local files of new attachments that cannot be read
    attachmentWriteFails: set<string>,  // attachment ids whose write fails
    removeFails: bool,
    entryWriteFails: set<Path>)

  /** A pending attachment (id, local path) whose write stops the commit. */
  predicate AttachmentFails(p: (string, string), f: Faults)
  {
    p.1 !in f.unreadable && p.0 in f.attachmentWriteFails
  }

  /** The position of the first pending attachment whose write fails, or the
    * number of pending attachments when none does. */
  function FailIndex(pending: seq<(string, string)>, f: Faults): (k: nat)
    ensures k <= |pending|
    ensures forall j :: 0 <= j < k ==> !AttachmentFails(pending[j], f)
    ensures k < |pending| ==> AttachmentFails(pending[k], f)
  {
    if pending == [] then 0
    else if AttachmentFails(pending[0], f) then 0
    else
      var k := 1 + FailIndex(pending[1..], f);
      assert forall j :: 1 <= j < |pending| ==> pending[j] == pending[1..][j - 1];
      k
  }

  /** The ids of the readable pending attachments: the ones whose encrypted copy is
    * written to the attachment store. */
  function Readable(pending: seq<(string, string)>, f: Faults): (ids: set<string>)
  {
    if pending == [] then {}
    else
      var last := pending[|pending| - 1];
      Readable(pending[..|pending| - 1], f) + (if last.1 !in f.unreadable then {last.0} else {})
  }

  /** The attachments written are exactly those of the readable local files. */
  lemma {:induction false} ReadableIff(pending: seq<(string, string)>, f: Faults, id: string)
    ensures id in Readable(pending, f) <==>
      exists j :: 0 <= j < |pending| && pending[j].0 == id && pending[j].1 !in f.unreadable
  {
    if pending != [] {
      var init := pending[..|pending| - 1];
      ReadableIff(init, f, id);
      assert forall j :: 0 <= j < |init| ==> init[j] == pending[j];
    }
  }

  lemma ReadableStep(pending: seq<(string, string)>, f: Faults, i: int)
    requires 0 <= i < |pending|
    ensures Readable(pending[..i + 1], f) ==
      Readable(pending[..i], f) + (if pending[i].1 !in f.unreadable then {pending[i].0} else {})
  {
    assert pending[..i + 1][..i] == pending[..i];
  }

  /** The editor's share of the `ui` package state, and the vault directory. */
  class Editor {
    var currentPath: Path                  // `uiCurrentPath`; [] when no entry is loaded
    var current: Option<Entry>             // `uiCurrentEnt`
    var editing: Option<Entry>             // `uiEditingEnt`
    var pendingAttachments: seq<Attachment>
    var pendingFiles: seq<(string, string)> // `uiPendingFilePaths`, in iteration order
    var titleField: Option<string>
    var login: Option<LoginForm>
    var card: Option<CardInput>
    var notes: string
    var saveDisabled: bool
    var page: string
    var errorText: string
    var showSensitive: bool
    var files: map<Path, Entry>
    var attachmentStore: set<string>

    constructor (stored: map<Path, Entry>)
      ensures files == stored && attachmentStore == {} && currentPath == []
      ensures current.None? && editing.None? && titleField.None? && login.None? && card.None?
      ensures pendingAttachments == [] && pendingFiles == [] && page == "main"
    {
      currentPath, current, editing := [], None, None;
      pendingAttachments, pendingFiles := [], [];
      titleField, login, card, notes := None, None, None, "";
      saveDisabled, page, errorText, showSensitive := false, "main", "", false;
      files, attachmentStore := stored, {};
    }

    /** Whether the entry being edited is a card (the guard of `validateCardFields`). */
    function EditingCard(): bool
      reads this
    {
      editing.Some? && editing.value.kind == TypeCard
    }

    /** `updateEditorSaveState`: Save is disabled exactly when the title or the
      * card fields fail validation. */
    method UpdateSaveState()
      modifies this
      ensures titleField.Some? ==>
        (saveDisabled <==> ValidateTitleField(titleField).Err? || ValidateCardFields(EditingCard(), card).Fail?)
      ensures titleField.None? ==> saveDisabled == old(saveDisabled)
      ensures files == old(files) && attachmentStore == old(attachmentStore) && currentPath == old(currentPath)
      ensures editing == old(editing) && titleField == old(titleField) && card == old(card) && login == old(login)
      ensures notes == old(notes) && pendingFiles == old(pendingFiles) && pendingAttachments == old(pendingAttachments)
      ensures page == old(page) && errorText == old(errorText) && current == old(current)
    {
      if titleField.None? {
        return;
      }
      var titleErr := ValidateTitleField(titleField);
      var cardErr := ValidateCardFields(EditingCard(), card);
      saveDisabled := titleErr.Err? || cardErr.Fail?;
    }

    /** `openEditor` before the Save button is refreshed: the pending attachments
      * are a copy taken before the type's fields are added (login, card and note
      * fields clear the edited entry's attachments); the form shows the entry. */
    method ShowEntry(ent: Entry)
      modifies this
      ensures pendingAttachments == ent.attachments && pendingFiles == []
      ensures titleField == Some(ent.title) && notes == ent.customText
      ensures ent.kind == TypeLogin ==> editing == Some(AddLoginFields(ent).0) && login == Some(AddLoginFields(ent).1)
      ensures ent.kind != TypeLogin ==> login.None?
      ensures ent.kind == TypeCard ==>
        editing == Some(ent.(attachments := [])) && card == Some(CardInput(ent.cardNumber, ent.expiry, ent.cvv))
      ensures ent.kind != TypeCard ==> card.None?
      ensures ent.kind == TypeNote ==> editing == Some(ent.(attachments := []))
      ensures ent.kind != TypeLogin && ent.kind != TypeCard && ent.kind != TypeNote ==> editing == Some(ent)
      ensures files == old(files) && attachmentStore == old(attachmentStore) && currentPath == old(currentPath)
    {
      editing := Some(ent);
      pendingAttachments := ent.attachments;
      pendingFiles := [];
      titleField, login, card := Some(ent.title), None, None;
      if ent.kind == TypeLogin {
        var (e, form) := AddLoginFields(ent);
        editing, login := Some(e), Some(form);
      } else if ent.kind == TypeCard {
        editing := Some(ent.(attachments := []));
        card := Some(CardInput(ent.cardNumber, ent.expiry, ent.cvv));
      } else if ent.kind == TypeNote {
        editing := Some(ent.(attachments := []));
      }
      notes := ent.customText;
    }

    /** `openEditor`: show the entry, refresh the Save button, switch to the editor. */
    method Open(ent: Entry)
      modifies this
      ensures pendingAttachments == ent.attachments && pendingFiles == []
      ensures titleField == Some(ent.title) && notes == ent.customText
      ensures ent.kind == TypeLogin ==> editing == Some(AddLoginFields(ent).0) && login == Some(AddLoginFields(ent).1)
      ensures ent.kind == TypeCard ==>
        editing == Some(ent.(attachments := [])) && card == Some(CardInput(ent.cardNumber, ent.expiry, ent.cvv))
      ensures ent.kind == TypeNote ==> editing == Some(ent.(attachments := []))
      ensures ent.kind != TypeLogin && ent.kind != TypeCard && ent.kind != TypeNote ==> editing == Some(ent)
      ensures saveDisabled <==> ValidateTitleField(titleField).Err? || ValidateCardFields(EditingCard(), card).Fail?
      ensures page == "editor"
      ensures files == old(files) && attachmentStore == old(attachmentStore) && currentPath == old(currentPath)
    {
      ShowEntry(ent);
      UpdateSaveState();
      page := "editor";
    }

    /** Ctrl+E on a loaded entry (outside a selected folder): `openEditor` is given
      * `uiCurrentEnt` itself, not a copy, so the entry being edited and the loaded
      * entry are one. The login, card and note fields clear its attachments, which
      * the loaded entry therefore loses too: only the pending copy keeps them. With
      * no entry loaded nothing happens. */
    method EditCurrent()
      modifies this
      ensures old(current).None? || old(currentPath) == [] ==>
        current == old(current) && editing == old(editing) && page == old(page) &&
        pendingAttachments == old(pendingAttachments)
      ensures old(current).Some? && old(currentPath) != [] ==>
        && pendingAttachments == old(current.value).attachments && pendingFiles == []
        && page == "editor" && current == editing
        && current == Some(old(current.value).(attachments :=
             if old(current.value).kind in {TypeLogin, TypeCard, TypeNote} then [] else old(current.value).attachments))
      ensures files == old(files) && attachmentStore == old(attachmentStore) && currentPath == old(currentPath)
    {
      if current.None? || currentPath == [] {
        return;
      }
      Open(current.value);
      current := editing;
    }

    /** `newEntry`: no file is being edited, and a blank entry of the type is
      * opened; its empty title keeps Save disabled. */
    method New(kind: string)
      modifies this
      ensures currentPath == [] && page == "editor"
      ensures titleField == Some("") && notes == "" && pendingAttachments == [] && pendingFiles == []
      ensures saveDisabled
      ensures files == old(files) && attachmentStore == old(attachmentStore)
    {
      currentPath := [];
      Open(NewEntry(kind, "", ""));
    }

    /** The entry `saveEntry` builds from the form: type, title, notes, the prior
      * history and the pending attachments, then the type's own fields. */
    function SavedEntry(kind: string, title: string, now: string): (e: Entry)
      requires kind == TypeLogin ==> login.Some?
      reads this
      ensures e.kind == kind && e.title == title && e.customText == notes
      ensures e.attachments == pendingAttachments
      ensures kind == TypeCard ==>
        (e.cardNumber, e.expiry, e.cvv) == CollectCardFields(card) && e.history == PriorHistory()
      ensures kind == TypeLogin ==>
        CollectLoginFields(e.(username := "", password := "", link := "", totpSecret := "", history := PriorHistory()),
                           login.value, PriorPassword(), now) == e
    {
      var base := Entry(kind, title, "", "", "", "", "", "", "", notes, pendingAttachments, PriorHistory());
      if kind == TypeLogin then CollectLoginFields(base, login.value, PriorPassword(), now)
      else if kind == TypeCard then
        var (number, expiry, cvv) := CollectCardFields(card);
        base.(cardNumber := number, expiry := expiry, cvv := cvv)
      else base
    }

    function PriorPassword(): string
      reads this
    {
      if editing.Some? then editing.value.password else ""
    }

    function PriorHistory(): seq<PasswordHistory>
      reads this
    {
      if editing.Some? then editing.value.history else []
    }

    /** The attachment loop of `commitSave`: write the readable new attachments in
      * order, stopping at the first write that fails. */
    method WriteAttachments(f: Faults) returns (ok: bool)
      modifies this`attachmentStore
      ensures ok <==> FailIndex(pendingFiles, f) == |pendingFiles|
      ensures attachmentStore == old(attachmentStore) + Readable(pendingFiles[..FailIndex(pendingFiles, f)], f)
    {
      var pending := pendingFiles;
      var k := FailIndex(pending, f);
      for i := 0 to |pending|
        invariant attachmentStore == old(attachmentStore) + Readable(pending[..i], f)
        invariant i <= k
      {
        ReadableStep(pending, f, i);
        var id, local := pending[i].0, pending[i].1;
        if local !in f.unreadable {
          if id in f.attachmentWriteFails {
            return false;
          }
          attachmentStore := attachmentStore + {id};
        }
      }
      assert pending[..|pending|] == pending;
      return true;
    }

    /** What `commitSave(newPath, ent)` leaves behind: the readable attachments
      * before the first failing write are stored; then, unless an attachment write
      * or the removal of the renamed entry's old file failed, the old file is gone
      * and, unless the entry write failed, `newPath` holds `ent`, which is loaded. */
    twostate predicate Committed(newPath: Path, ent: Entry, f: Faults)
      reads this
    {
      var k := FailIndex(old(pendingFiles), f);
      var rename := old(currentPath) != [] && old(currentPath) != newPath;
      var base := if rename then old(files) - {old(currentPath)} else old(files);
      && attachmentStore == old(attachmentStore) + Readable(old(pendingFiles)[..k], f)
      && if k < |old(pendingFiles)| || (rename && f.removeFails) then
           files == old(files) && currentPath == old(currentPath) && page == old(page)
         else if newPath in f.entryWriteFails then
           files == base && currentPath == old(currentPath) && page == old(page)
         else
           files == base[newPath := ent] && currentPath == newPath && current == Some(ent) &&
           page == "main" && !showSensitive
    }

    /** `commitSave`: write the attachments; on a rename remove the old file;
      * write the entry; then load it. A failure at any step leaves the later
      * steps undone. */
    method CommitSave(newPath: Path, ent: Entry, f: Faults)
      modifies this`attachmentStore, this`files, this`page, this`current, this`currentPath, this`showSensitive
      ensures Committed(newPath, ent, f)
      ensures pendingFiles == old(pendingFiles)
    {
      var ok := WriteAttachments(f);
      if !ok {
        return;
      }
      if currentPath != [] && currentPath != newPath {
        if f.removeFails {
          return;
        }
        files := files - {currentPath};
      }
      if newPath in f.entryWriteFails {
        return;
      }
      files := files[newPath := ent];
      page := "main";
      current, currentPath, showSensitive := Some(ent), newPath, false;
    }

    /** `saveEntry`: nothing is written unless the title and card fields pass;
      * a title whose file exists and is not the entry being edited is refused
      * with a message; otherwise the entry is committed. No entry other than the
      * one being edited is ever overwritten or removed. */
    method SaveEntry(now: string, f: Faults)
      requires editing.Some? && (editing.value.kind == TypeLogin ==> login.Some?)
      modifies this
      ensures var t := ValidateTitleField(old(titleField));
        var c := ValidateCardFields(old(EditingCard()), old(card));
        t.Err? || c.Fail? ==>
          files == old(files) && attachmentStore == old(attachmentStore) && (old(titleField).Some? ==> saveDisabled)
      ensures forall p :: p in old(files) && p != old(currentPath) ==> p in files && files[p] == old(files)[p]
      ensures var t := ValidateTitleField(old(titleField));
        var kind := old(editing).value.kind;
        t.Ok? && ValidateCardFields(old(EditingCard()), old(card)) == Pass && !f.mkdirFails &&
        EntryPath(kind, t.value) in old(files) && EntryPath(kind, t.value) != old(currentPath) ==>
          files == old(files) && page == "error" && errorText == TitleExists
      ensures var t := ValidateTitleField(old(titleField));
        var kind := old(editing).value.kind;
        t.Ok? && ValidateCardFields(old(EditingCard()), old(card)) == Pass && !f.mkdirFails &&
        (EntryPath(kind, t.value) !in old(files) || EntryPath(kind, t.value) == old(currentPath)) &&
        FailIndex(old(pendingFiles), f) == |old(pendingFiles)| &&
        !(old(currentPath) != [] && old(currentPath) != EntryPath(kind, t.value) && f.removeFails) &&
        EntryPath(kind, t.value) !in f.entryWriteFails ==>
          EntryPath(kind, t.value) in files && currentPath == EntryPath(kind, t.value) &&
          files[currentPath] == old(SavedEntry(kind, t.value, now))
      ensures var t := ValidateTitleField(old(titleField));
        t.Ok? && ValidateCardFields(old(EditingCard()), old(card)) == Pass && f.mkdirFails ==>
          files == old(files) && attachmentStore == old(attachmentStore) && currentPath == old(currentPath)
      ensures var t := ValidateTitleField(old(titleField));
        var kind := old(editing).value.kind;
        t.Ok? && ValidateCardFields(old(EditingCard()), old(card)) == Pass && !f.mkdirFails &&
        (EntryPath(kind, t.value) !in old(files) || EntryPath(kind, t.value) == old(currentPath)) ==>
          Committed(EntryPath(kind, t.value), old(SavedEntry(kind, t.value, now)), f)
    {
      var title := ValidateTitleField(titleField);
      if title.Err? {
        UpdateSaveState();
        return;
      }
      var cardCheck := ValidateCardFields(EditingCard(), card);
      if cardCheck.Fail? {
        UpdateSaveState();
        return;
      }
      var kind := editing.value.kind;
      var ent := SavedEntry(kind, title.value, now);
      if f.mkdirFails {
        return;
      }
      var newPath := EntryPath(kind, title.value);
      if newPath in files && currentPath != newPath {
        errorText := TitleExists;
        page := "error";
        return;
      }
      CommitSave(newPath, ent, f);
    }

    /** The names taken in directory `dir`. */
    function TakenIn(dir: string): (names: set<string>)
      reads this
      ensures forall n :: n in names <==> [dir, n] in files
    {
      var names := set p | p in files && |p| == 2 && p[0] == dir :: p[1];
      assert forall p :: p in files && |p| == 2 && p[0] == dir ==> p == [dir, p[1]];
      assert forall n :: [dir, n] in files ==> [dir, n][1] == n;
      names
    }

    /** The "Add Suffix" choice of the collision prompt: save under the first free
      * `base_n.pb` next to the pending path, which no existing file has. */
    method AddSuffix(pendingPath: Path, data: Entry, f: Faults) returns (newPath: Path)
      requires |pendingPath| == 2
      modifies this
      ensures |newPath| == 2 && newPath[0] == pendingPath[0] && newPath !in old(files)
      ensures exists k ::
        (IsFirstFree(TrimSuffix(pendingPath[1], ".pb"), old(TakenIn(pendingPath[0])), k) &&
         newPath[1] == SuffixName(TrimSuffix(pendingPath[1], ".pb"), k))
      ensures forall p :: p in old(files) && p != old(currentPath) ==> p in files && files[p] == old(files)[p]
      ensures Committed(newPath, data, f)
    {
      var dir, base := pendingPath[0], TrimSuffix(pendingPath[1], ".pb");
      var k := FirstFreeSuffix(base, TakenIn(dir));
      newPath := [dir, SuffixName(base, k)];
      CommitSave(newPath, data, f);
    }

    /** The collision prompt: "Cancel" returns to the editor, "Replace" commits to
      * the pending path, "Add Suffix" commits to a fresh suffixed name. */
    method OnCollisionChoice(choice: string, pendingPath: Path, data: Entry, f: Faults)
      requires |pendingPath| == 2
      modifies this
      ensures choice == "Cancel" ==> page == "editor" && files == old(files)
      ensures choice != "Cancel" && choice != "Replace" && choice != "Add Suffix" ==> files == old(files)
      ensures choice != "Replace" ==>
        forall p :: p in old(files) && p != old(currentPath) ==> p in files && files[p] == old(files)[p]
      ensures choice == "Replace" ==> Committed(pendingPath, data, f)
      ensures choice == "Add Suffix" ==>
        var dir, base := pendingPath[0], TrimSuffix(pendingPath[1], ".pb");
        exists k :: IsFirstFree(base, old(TakenIn(dir)), k) && Committed([dir, SuffixName(base, k)], data, f)
    {
      if choice == "Cancel" {
        page := "editor";
      } else if choice == "Replace" {
        CommitSave(pendingPath, data, f);
      } else if choice == "Add Suffix" {
        var base := TrimSuffix(pendingPath[1], ".pb");
        ghost var taken := TakenIn(pendingPath[0]);
        var newPath := AddSuffix(pendingPath, data, f);
        ghost var k :| IsFirstFree(base, taken, k) && newPath[1] == SuffixName(base, k);
        assert newPath == [pendingPath[0], SuffixName(base, k)];
      }
    }
  }
}
