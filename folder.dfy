/** Folders of the terminal UI (`internal/ui/folder.go`): the folder-name rule,
  * create, rename, the delete prompt's item count, and delete, which also
  * removes the attachments of the entries inside. The data directory is a
  * `DirTree.Node` listing whose directories are the folders; `decoded` holds
  * the entries that can be read, decrypted and parsed. */
module Folder {
  import opened Wrappers
  import opened Text
  import opened Vault
  import opened DirTree
  import ImporterCommon
  import Tree

  /** `isValidFolderName`. */
  predicate IsValidFolderName(name: string)
  {
    name != "" && !ContainsAny(name, ImporterCommon.Forbidden) &&
    name != "." && name != ".." && !HasPrefix(name, ".") && !HasPrefix(name, "_")
  }

  /** A valid folder name is never hidden, so the tree and the vault walks see
    * the folder; the "." and ".." tests are implied by the leading-dot test. */
  lemma ValidFolderVisible(name: string)
    ensures IsValidFolderName(name) <==>
      name != "" && !ContainsAny(name, ImporterCommon.Forbidden) && !Hidden(name)
  {
    if name == "." || name == ".." {
      assert HasPrefix(name, ".");
    }
  }

  /** The children of the top-level directory `name`; none when it does not exist
    * (the listing error is ignored). */
  function DirChildren(entries: seq<Node>, name: string): (files: seq<Node>)
  {
    if entries == [] then []
    else if entries[0].Dir? && entries[0].name == name then entries[0].children
    else DirChildren(entries[1..], name)
  }

  /** The listing after `os.Rename` of the folder `from` to `to`. */
  function RenameDir(entries: seq<Node>, from: string, to: string): (r: seq<Node>)
    ensures |r| == |entries|
    ensures forall i :: 0 <= i < |r| ==>
      r[i] == if entries[i].Dir? && entries[i].name == from then entries[i].(name := to) else entries[i]
  {
    if entries == [] then []
    else
      var head := if entries[0].Dir? && entries[0].name == from then entries[0].(name := to) else entries[0];
      [head] + RenameDir(entries[1..], from, to)
  }

  /** The listing after `os.RemoveAll` of the folder `name`. */
  function RemoveDir(entries: seq<Node>, name: string): (r: seq<Node>)
    ensures forall n :: n in r <==> n in entries && !(n.Dir? && n.name == name)
  {
    if entries == [] then []
    else if entries[0].Dir? && entries[0].name == name then RemoveDir(entries[1..], name)
    else [entries[0]] + RemoveDir(entries[1..], name)
  }

  /** The number of entry files the delete prompt reports: files named `*.pb`. */
  function PbCount(files: seq<Node>): (n: nat)
    ensures n <= |files|
  {
    if files == [] then 0
    else PbCount(files[..|files| - 1]) + (if Tree.IsItem(files[|files| - 1]) then 1 else 0)
  }

  /** The loop of `doFolderDelete`: the attachments of every decodable entry file
    * of `files`, in folder `dir`, removed from the store. */
  method RemoveFolderAttachments(store: set<string>, files: seq<Node>, dir: string, decoded: map<Path, Entry>)
    returns (store': set<string>)
    ensures store' == store - AttachmentIdsOf(files, dir, decoded)
  {
    store' := store;
    for i := 0 to |files|
      invariant store' == store - AttachmentIdsOf(files[..i], dir, decoded)
    {
      assert files[..i + 1][..i] == files[..i];
      var f := files[i];
      if f.Dir? || !HasSuffix(f.name, ".pb") {
        continue;
      }
      var path := [dir, f.name];
      if path !in decoded {
        continue;
      }
      store' := RemoveAttachments(store', decoded[path].attachments);
    }
    assert files[..|files|] == files;
  }

  /** The counting loop of `showFolderDeleteModal`. */
  method CountEntryFiles(files: seq<Node>) returns (count: nat)
    ensures count == PbCount(files)
  {
    count := 0;
    for i := 0 to |files|
      invariant count == PbCount(files[..i])
    {
      assert files[..i + 1][..i] == files[..i];
      if files[i].File? && HasSuffix(files[i].name, ".pb") {
        count := count + 1;
      }
    }
    assert files[..|files|] == files;
  }

  /** The prompt counts exactly the items the unfiltered tree shows for the folder. */
  lemma {:induction false} PbCountIsTreeItems(files: seq<Node>, dir: Path, decoded: map<Path, Entry>)
    ensures PbCount(files) == |Tree.ItemsOf(files, dir, "", decoded)|
  {
    if files != [] {
      PbCountIsTreeItems(files[..|files| - 1], dir, decoded);
    }
  }

  /** The ids of the attachments of the decodable entry files in `files`, which
    * lie in folder `dir`. */
  function AttachmentIdsOf(files: seq<Node>, dir: string, decoded: map<Path, Entry>): set<string>
  {
    if files == [] then {}
    else
      var f := files[|files| - 1];
      var path := [dir, f.name];
      AttachmentIdsOf(files[..|files| - 1], dir, decoded) +
        (if Tree.IsItem(f) && path in decoded then Ids(decoded[path].attachments) else {})
  }

  function Ids(atts: seq<Attachment>): (ids: set<string>)
    ensures forall a :: a in atts ==> a.id in ids
    ensures forall id :: id in ids ==> exists a :: a in atts && a.id == id
  {
    set a | a in atts :: a.id
  }

  /** Deleting an entry's attachments takes them out of the store one by one. */
  method RemoveAttachments(store: set<string>, atts: seq<Attachment>) returns (r: set<string>)
    ensures r == store - Ids(atts)
  {
    r := store;
    for k := 0 to |atts|
      invariant r == store - Ids(atts[..k])
    {
      assert Ids(atts[..k + 1]) == Ids(atts[..k]) + {atts[k].id} by {
        assert atts[..k + 1] == atts[..k] + [atts[k]];
      }
      r := r - {atts[k].id};
    }
    assert atts[..|atts|] == atts;
  }

  const DeletePage := "folder_delete"

  /** The folder state of the `ui` package and the data directory. */
  class FolderUi {
    var currentFolder: string     // `uiCurrentFolder`; "" when no folder is selected
    var currentPath: Path
    var current: Option<Entry>
    var page: string
    var promptText: string
    var entries: seq<Node>
    var attachmentStore: set<string>

    constructor (listing: seq<Node>, store: set<string>)
      ensures entries == listing && attachmentStore == store && currentFolder == ""
      ensures currentPath == [] && current.None? && page == "main"
    {
      currentFolder, currentPath, current := "", [], None;
      page, promptText := "main", "";
      entries, attachmentStore := listing, store;
    }

    /** The "Create" button: make the folder named by the trimmed text, when valid. */
    method Create(text: string, mkdirFails: bool)
      modifies this
      ensures var name := TrimSpace(text);
        if !IsValidFolderName(name) || mkdirFails then entries == old(entries) && page == old(page)
        else
          (page == "main" &&
           (entries == old(entries) || entries == old(entries) + [Dir(name, [])]) &&
           exists i :: 0 <= i < |entries| && entries[i].Dir? && entries[i].name == name)
      ensures currentFolder == old(currentFolder) && attachmentStore == old(attachmentStore)
    {
      var name := TrimSpace(text);
      if !IsValidFolderName(name) || mkdirFails {
        return;
      }
      if !exists i :: 0 <= i < |entries| && entries[i].Dir? && entries[i].name == name {
        entries := entries + [Dir(name, [])];
        assert entries[|entries| - 1].Dir?;
      }
      page := "main";
    }

    /** `doFolderRename`: an invalid name changes nothing; the current name only
      * returns to the main page; otherwise a successful rename renames the folder
      * and makes it the current one. */
    method Rename(text: string, renameFails: bool)
      modifies this
      ensures var name := TrimSpace(text);
        if !IsValidFolderName(name) then
          entries == old(entries) && currentFolder == old(currentFolder) && page == old(page)
        else if name == old(currentFolder) then
          entries == old(entries) && currentFolder == old(currentFolder) && page == "main"
        else if renameFails then
          entries == old(entries) && currentFolder == old(currentFolder) && page == old(page)
        else
          entries == RenameDir(old(entries), old(currentFolder), name) && currentFolder == name && page == "main"
      ensures attachmentStore == old(attachmentStore) && currentPath == old(currentPath)
    {
      var name := TrimSpace(text);
      if !IsValidFolderName(name) {
        return;
      }
      if name == currentFolder {
        page := "main";
        return;
      }
      if renameFails {
        return;
      }
      entries := RenameDir(entries, currentFolder, name);
      currentFolder := name;
      page := "main";
    }

    /** `showFolderDeleteModal`: count the entry files of the current folder and
      * ask accordingly. */
    method ShowDeletePrompt() returns (count: nat)
      modifies this`promptText, this`page
      ensures old(currentFolder) == "" ==> page == old(page) && promptText == old(promptText)
      ensures old(currentFolder) != "" ==>
        count == PbCount(DirChildren(entries, currentFolder)) && page == DeletePage &&
        promptText == DeletePromptText(currentFolder, count)
    {
      if currentFolder == "" {
        return 0;
      }
      var files := DirChildren(entries, currentFolder);
      count := CountEntryFiles(files);
      promptText := DeletePromptText(currentFolder, count);
      page := DeletePage;
    }

    /** `doFolderDelete`: remove the attachments of every decodable entry file of
      * the folder, remove the folder, and clear the selection. */
    method Delete(decoded: map<Path, Entry>)
      modifies this
      ensures old(currentFolder) == "" ==> entries == old(entries) && attachmentStore == old(attachmentStore)
      ensures old(currentFolder) != "" ==>
        attachmentStore ==
          old(attachmentStore) - AttachmentIdsOf(DirChildren(old(entries), old(currentFolder)), old(currentFolder), decoded) &&
        entries == RemoveDir(old(entries), old(currentFolder)) &&
        currentFolder == "" && currentPath == [] && current.None?
    {
      if currentFolder == "" {
        return;
      }
      var dir := currentFolder;
      var files := DirChildren(entries, dir);
      attachmentStore := RemoveFolderAttachments(attachmentStore, files, dir, decoded);
      entries := RemoveDir(entries, dir);
      currentFolder, currentPath, current := "", [], None;
    }
  }

  /** The delete prompt: the item count when there is one. */
  function DeletePromptText(name: string, count: nat): string
  {
    if count > 0 then
      "Folder \"" + name + "\" contains " + Itoa(count) +
      " item(s).\nAll items inside will be permanently deleted.\n\nAre you sure?"
    else "Delete empty folder \"" + name + "\"?"
  }

  /** After a delete the folder is gone from the tree. */
  lemma DeletedFolderNotListed(entries: seq<Node>, name: string, filter: string, decoded: map<Path, Entry>)
    ensures forall d :: d in Tree.VisibleDirs(RemoveDir(entries, name)) ==> d.name != name
  {
  }
}
