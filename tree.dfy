/** The entry tree of the terminal UI (`internal/ui/tree.go`): the sorted folder
  * list, the item nodes of a directory under a search filter, the rebuilt tree,
  * the type icons, and the pre-order search that selects a path. Directory
  * listings are `DirTree.Node` sequences; `os.ReadDir` hands them over sorted by
  * file name, and every property here holds for a listing in any order, so the
  * model does not require the sort; `decoded` holds the entries that can be read, decrypted and parsed. */
module Tree {
  import opened Wrappers
  import opened Text
  import opened Vault
  import opened DirTree

  // ---------------------------------------------------------------------------
  // Icons
  // ---------------------------------------------------------------------------

  const LoginIcon := "\U{1F510}"
  const CardIcon := "\U{1F4B3}"
  const NoteIcon := "\U{1F4DD}"
  const FileIcon := "\U{1F4CE}"
  const DefaultIcon := "\U{1F4C4}"
  const FolderIcon := "\U{1F4C1}"

  /** `entryTypeIcon`: one icon per entry type, the default one for anything else. */
  function EntryTypeIcon(t: string): (icon: string)
    ensures icon == DefaultIcon <==> t != "Login" && t != "Card" && t != "Note" && t != "File"
    ensures t == "Login" ==> icon == LoginIcon
    ensures t == "Card" ==> icon == CardIcon
    ensures t == "Note" ==> icon == NoteIcon
    ensures t == "File" ==> icon == FileIcon
  {
    match t
    case "Login" => LoginIcon
    case "Card" => CardIcon
    case "Note" => NoteIcon
    case "File" => FileIcon
    case _ => DefaultIcon
  }

  /** Different types get different icons. */
  lemma EntryTypeIconInjective(a: string, b: string)
    requires EntryTypeIcon(a) == EntryTypeIcon(b) && EntryTypeIcon(a) != DefaultIcon
    ensures a == b
  {
  }

  /** `readEntryType`: the stored entry's type, or "" when the file cannot be read,
    * decrypted or parsed. */
  function ReadEntryType(decoded: map<Path, Entry>, p: Path): (t: string)
    ensures p !in decoded ==> t == ""
    ensures p in decoded ==> t == decoded[p].kind
  {
    if p in decoded then decoded[p].kind else ""
  }

  /** An unreadable entry gets the default icon. */
  lemma UnreadableDefaultIcon(decoded: map<Path, Entry>, p: Path)
    requires p !in decoded
    ensures EntryTypeIcon(ReadEntryType(decoded, p)) == DefaultIcon
  {
  }

  // ---------------------------------------------------------------------------
  // Item nodes
  // ---------------------------------------------------------------------------

  /** A node of the tree view; the root node has no reference. */
  datatype TreeNode = TreeNode(text: string, reference: Option<Path>, children: seq<TreeNode>)

  /** A file the tree lists: not a directory, named `*.pb`. */
  predicate IsItem(f: Node)
  {
    f.File? && HasSuffix(f.name, ".pb")
  }

  /** The search filter: empty, or contained in the name ignoring ASCII case. */
  predicate Matches(name: string, filter: string)
  {
    filter == "" || Contains(Lower(name), Lower(filter))
  }

  function ItemNode(f: Node, dir: Path, decoded: map<Path, Entry>): (n: TreeNode)
  {
    var name := TrimSuffix(f.name, ".pb");
    var path := dir + [f.name];
    TreeNode(EntryTypeIcon(ReadEntryType(decoded, path)) + " " + name, Some(path), [])
  }

  /** Whether `addItemNodes` adds a node for `f`. */
  predicate Shown(f: Node, filter: string)
  {
    IsItem(f) && Matches(TrimSuffix(f.name, ".pb"), filter)
  }

  /** The nodes `addItemNodes` adds for the listing `files` of `dir`, in order. */
  function ItemsOf(files: seq<Node>, dir: Path, filter: string, decoded: map<Path, Entry>): (items: seq<TreeNode>)
    ensures |items| <= |files|
  {
    if files == [] then []
    else
      var last := files[|files| - 1];
      ItemsOf(files[..|files| - 1], dir, filter, decoded) +
        (if Shown(last, filter) then [ItemNode(last, dir, decoded)] else [])
  }

  /** Every item is a leaf naming a `.pb` file of `dir` whose name, without the
    * suffix, matches the filter; every matching `.pb` file has its item. */
  lemma {:induction false} ItemsOfSpec(files: seq<Node>, dir: Path, filter: string, decoded: map<Path, Entry>)
    ensures forall n :: n in ItemsOf(files, dir, filter, decoded) ==>
      n.children == [] && n.reference.Some? &&
      exists f :: f in files && Shown(f, filter) && n.reference.value == dir + [f.name]
    ensures forall f :: f in files && Shown(f, filter) ==>
      ItemNode(f, dir, decoded) in ItemsOf(files, dir, filter, decoded)
  {
    if files != [] {
      var init := files[..|files| - 1];
      ItemsOfSpec(init, dir, filter, decoded);
      assert files == init + [files[|files| - 1]];
    }
  }

  /** A filter only hides items. */
  lemma {:induction false} ItemsFilterShrinks(files: seq<Node>, dir: Path, filter: string, decoded: map<Path, Entry>)
    ensures |ItemsOf(files, dir, filter, decoded)| <= |ItemsOf(files, dir, "", decoded)|
  {
    if files != [] {
      ItemsFilterShrinks(files[..|files| - 1], dir, filter, decoded);
    }
  }

  lemma ItemsOfStep(files: seq<Node>, dir: Path, filter: string, decoded: map<Path, Entry>, i: int)
    requires 0 <= i < |files|
    ensures ItemsOf(files[..i + 1], dir, filter, decoded) ==
      ItemsOf(files[..i], dir, filter, decoded) +
      (if Shown(files[i], filter) then [ItemNode(files[i], dir, decoded)] else [])
  {
    assert files[..i + 1][..i] == files[..i];
  }

  /** `addItemNodes`: the item nodes added under a parent, and their number. */
  method AddItemNodes(files: seq<Node>, dir: Path, filter: string, decoded: map<Path, Entry>)
    returns (items: seq<TreeNode>, count: nat)
    ensures items == ItemsOf(files, dir, filter, decoded) && count == |items|
  {
    items, count := [], 0;
    for i := 0 to |files|
      invariant items == ItemsOf(files[..i], dir, filter, decoded) && count == |items|
    {
      ItemsOfStep(files, dir, filter, decoded, i);
      var f := files[i];
      if f.Dir? || !HasSuffix(f.name, ".pb") {
        continue;
      }
      var name := TrimSuffix(f.name, ".pb");
      if filter != "" && !Contains(Lower(name), Lower(filter)) {
        continue;
      }
      var fullPath := dir + [f.name];
      var icon := EntryTypeIcon(ReadEntryType(decoded, fullPath));
      items := items + [TreeNode(icon + " " + name, Some(fullPath), [])];
      count := count + 1;
    }
    assert files[..|files|] == files;
  }

  // ---------------------------------------------------------------------------
  // Folder list (sorted)
  // ---------------------------------------------------------------------------

  /** Go's string order (byte order of UTF-8, which is the order of code points):
    * `a` comes no later than `b`. */
  predicate NoLater(a: string, b: string)
  {
    if a == [] then true
    else if b == [] then false
    else if a[0] != b[0] then a[0] < b[0]
    else NoLater(a[1..], b[1..])
  }

  lemma {:induction false} NoLaterTotal(a: string, b: string)
    ensures NoLater(a, b) || NoLater(b, a)
  {
    if a != [] && b != [] && a[0] == b[0] {
      NoLaterTotal(a[1..], b[1..]);
    }
  }

  lemma {:induction false} NoLaterTrans(a: string, b: string, c: string)
    requires NoLater(a, b) && NoLater(b, c)
    ensures NoLater(a, c)
  {
    if a != [] && b != [] && c != [] && a[0] == b[0] == c[0] {
      NoLaterTrans(a[1..], b[1..], c[1..]);
    }
  }

  lemma {:induction false} NoLaterAntisym(a: string, b: string)
    requires NoLater(a, b) && NoLater(b, a)
    ensures a == b
  {
    if a != [] && b != [] {
      NoLaterAntisym(a[1..], b[1..]);
      assert a == [a[0]] + a[1..] && b == [b[0]] + b[1..];
    }
  }

  ghost predicate Sorted(s: seq<string>)
  {
    forall i, j :: 0 <= i < j < |s| ==> NoLater(s[i], s[j])
  }

  /** Put `x` into its place in the sorted `s`. */
  method InsertSorted(s: seq<string>, x: string) returns (r: seq<string>)
    requires Sorted(s)
    ensures Sorted(r) && multiset(r) == multiset(s) + multiset{x}
  {
    var i := 0;
    while i < |s| && !NoLater(x, s[i])
      invariant 0 <= i <= |s|
      invariant forall j :: 0 <= j < i ==> NoLater(s[j], x)
    {
      NoLaterTotal(x, s[i]);
      i := i + 1;
    }
    r := s[..i] + [x] + s[i..];
    InsertAtSorted(s, x, i);
    InsertAtMultiset(s, x, i);
  }

  /** `x` put at a position after every name not later than it and before a name
    * it is not later than keeps the list sorted. */
  lemma InsertAtSorted(s: seq<string>, x: string, i: nat)
    requires Sorted(s) && i <= |s|
    requires forall j :: 0 <= j < i ==> NoLater(s[j], x)
    requires i < |s| ==> NoLater(x, s[i])
    ensures Sorted(s[..i] + [x] + s[i..])
  {
    var r := s[..i] + [x] + s[i..];
    forall a, b | 0 <= a < b < |r|
      ensures NoLater(r[a], r[b])
    {
      if b == i {
        assert r[a] == s[a];
      } else if a == i {
        assert r[b] == s[b - 1];
        if b - 1 > i { NoLaterTrans(x, s[i], s[b - 1]); }
      } else if a < i && b > i {
        assert r[a] == s[a] && r[b] == s[b - 1];
      } else if b < i {
        assert r[a] == s[a] && r[b] == s[b];
      } else {
        assert r[a] == s[a - 1] && r[b] == s[b - 1];
      }
    }
  }

  lemma InsertAtMultiset<T>(s: seq<T>, x: T, i: nat)
    requires i <= |s|
    ensures multiset(s[..i] + [x] + s[i..]) == multiset(s) + multiset{x}
  {
    assert s == s[..i] + s[i..];
  }

  /** The names of the directories of `entries` that are not hidden, in order. */
  function VisibleDirNames(entries: seq<Node>): (names: seq<string>)
    ensures forall n :: n in names ==> !Hidden(n)
  {
    if entries == [] then []
    else
      var last := entries[|entries| - 1];
      VisibleDirNames(entries[..|entries| - 1]) + (if last.Dir? && !Hidden(last.name) then [last.name] else [])
  }

  lemma VisibleDirNamesStep(entries: seq<Node>, i: int)
    requires 0 <= i < |entries|
    ensures VisibleDirNames(entries[..i + 1]) ==
      VisibleDirNames(entries[..i]) + (if entries[i].Dir? && !Hidden(entries[i].name) then [entries[i].name] else [])
  {
    assert entries[..i + 1][..i] == entries[..i];
  }

  /** `listFolders`: the visible directories of the data directory, sorted; none
    * when it cannot be read. */
  method ListFolders(listing: Option<seq<Node>>) returns (folders: seq<string>)
    ensures listing.None? ==> folders == []
    ensures listing.Some? ==> Sorted(folders) && multiset(folders) == multiset(VisibleDirNames(listing.value))
  {
    if listing.None? {
      return [];
    }
    var entries := listing.value;
    var names: seq<string> := [];
    for i := 0 to |entries|
      invariant names == VisibleDirNames(entries[..i])
    {
      VisibleDirNamesStep(entries, i);
      if entries[i].Dir? && !Hidden(entries[i].name) {
        names := names + [entries[i].name];
      }
    }
    assert entries[..|entries|] == entries;
    folders := [];
    for i := 0 to |names|
      invariant Sorted(folders) && multiset(folders) == multiset(names[..i])
    {
      folders := InsertSorted(folders, names[i]);
      assert names[..i + 1] == names[..i] + [names[i]];
    }
    assert names[..|names|] == names;
  }

  /** There is only one sorted arrangement of a collection of names, so the
    * folder list is determined by the directory's contents. */
  lemma {:induction false} SortedUnique(a: seq<string>, b: seq<string>)
    requires Sorted(a) && Sorted(b) && multiset(a) == multiset(b)
    ensures a == b
    decreases |a|
  {
    if a != [] {
      SortedHeadsMeet(a, b);
      SortedTail(a);
      SortedTail(b);
      MultisetTail(a);
      MultisetTail(b);
      SortedUnique(a[1..], b[1..]);
      ConsTail(a, b);
    }
  }

  /** Two sorted arrangements of the same names start with the same name. */
  lemma SortedHeadsMeet(a: seq<string>, b: seq<string>)
    requires Sorted(a) && Sorted(b) && multiset(a) == multiset(b) && a != []
    ensures b != [] && a[0] == b[0]
  {
    assert a[0] in multiset(b);
    assert b != [] && b[0] in multiset(a);
    SortedHeadFirst(a, b[0]);
    SortedHeadFirst(b, a[0]);
    NoLaterAntisym(a[0], b[0]);
  }

  lemma ConsTail<T>(a: seq<T>, b: seq<T>)
    requires a != [] && b != [] && a[0] == b[0] && a[1..] == b[1..]
    ensures a == b
  {
    assert a == [a[0]] + a[1..] && b == [b[0]] + b[1..];
  }

  lemma NoLaterRefl(a: string)
    ensures NoLater(a, a)
  {
  }

  lemma SortedHeadFirst(s: seq<string>, x: string)
    requires Sorted(s) && x in multiset(s)
    ensures s != [] && NoLater(s[0], x)
  {
    var k :| 0 <= k < |s| && s[k] == x;
    if k == 0 { NoLaterRefl(x); }
  }

  lemma SortedTail(s: seq<string>)
    requires Sorted(s) && s != []
    ensures Sorted(s[1..])
  {
    forall i, j | 0 <= i < j < |s[1..]|
      ensures NoLater(s[1..][i], s[1..][j])
    {
      assert s[1..][i] == s[i + 1] && s[1..][j] == s[j + 1];
    }
  }

  lemma MultisetTail(s: seq<string>)
    requires s != []
    ensures multiset(s[1..]) == multiset(s) - multiset{s[0]}
  {
    assert s == [s[0]] + s[1..];
  }

  // ---------------------------------------------------------------------------
  // The rebuilt tree
  // ---------------------------------------------------------------------------

  /** The visible directories of a listing, in order. */
  function VisibleDirs(entries: seq<Node>): (dirs: seq<Node>)
    ensures forall d :: d in dirs ==> d.Dir? && !Hidden(d.name) && d in entries
  {
    if entries == [] then []
    else
      var last := entries[|entries| - 1];
      var init := VisibleDirs(entries[..|entries| - 1]);
      init + (if last.Dir? && !Hidden(last.name) then [last] else [])
  }

  lemma VisibleDirsStep(entries: seq<Node>, i: int)
    requires 0 <= i < |entries|
    ensures VisibleDirs(entries[..i + 1]) ==
      VisibleDirs(entries[..i]) + (if entries[i].Dir? && !Hidden(entries[i].name) then [entries[i]] else [])
  {
    assert entries[..i + 1][..i] == entries[..i];
  }

  function FolderNode(d: Node, filter: string, decoded: map<Path, Entry>): (n: TreeNode)
    requires d.Dir?
  {
    TreeNode(FolderIcon + " " + d.name, Some([d.name]), ItemsOf(d.children, [d.name], filter, decoded))
  }

  /** Whether `refreshTree` shows a folder: without a filter always, with one
    * only when some item in it matches. */
  predicate FolderShown(d: Node, filter: string, decoded: map<Path, Entry>)
    requires d.Dir?
  {
    |ItemsOf(d.children, [d.name], filter, decoded)| > 0 || filter == ""
  }

  /** The folder nodes `refreshTree` adds for the directories `dirs`. */
  function FolderNodes(dirs: seq<Node>, filter: string, decoded: map<Path, Entry>): (nodes: seq<TreeNode>)
    requires forall d :: d in dirs ==> d.Dir?
  {
    if dirs == [] then []
    else
      var last := dirs[|dirs| - 1];
      FolderNodes(dirs[..|dirs| - 1], filter, decoded) +
        (if FolderShown(last, filter, decoded) then [FolderNode(last, filter, decoded)] else [])
  }

  lemma FolderNodesStep(dirs: seq<Node>, filter: string, decoded: map<Path, Entry>, i: int)
    requires 0 <= i < |dirs| && forall d :: d in dirs ==> d.Dir?
    ensures FolderNodes(dirs[..i + 1], filter, decoded) ==
      FolderNodes(dirs[..i], filter, decoded) +
      (if FolderShown(dirs[i], filter, decoded) then [FolderNode(dirs[i], filter, decoded)] else [])
  {
    assert dirs[..i + 1][..i] == dirs[..i];
  }

  /** The children of the root after `refreshTree`: the shown folders, then the
    * items of the data directory itself. */
  function Built(entries: seq<Node>, filter: string, decoded: map<Path, Entry>): seq<TreeNode>
  {
    FolderNodes(VisibleDirs(entries), filter, decoded) + ItemsOf(entries, [], filter, decoded)
  }

  /** A folder is shown exactly when it is visible and, under a filter, holds a
    * match; it holds its items and no sub-folder. */
  lemma {:induction false} FolderNodesSpec(dirs: seq<Node>, filter: string, decoded: map<Path, Entry>)
    requires forall d :: d in dirs ==> d.Dir?
    ensures forall n :: n in FolderNodes(dirs, filter, decoded) ==>
      exists d :: d in dirs && FolderShown(d, filter, decoded) && n == FolderNode(d, filter, decoded)
    ensures forall d :: d in dirs && FolderShown(d, filter, decoded) ==>
      FolderNode(d, filter, decoded) in FolderNodes(dirs, filter, decoded)
  {
    if dirs != [] {
      var init := dirs[..|dirs| - 1];
      FolderNodesSpec(init, filter, decoded);
      assert dirs == init + [dirs[|dirs| - 1]];
    }
  }

  /** Nothing in the tree is nested deeper than folder, then item. */
  lemma NoNestedFolders(entries: seq<Node>, filter: string, decoded: map<Path, Entry>)
    ensures forall n, c :: n in Built(entries, filter, decoded) && c in n.children ==> c.children == []
  {
    var dirs := VisibleDirs(entries);
    FolderNodesSpec(dirs, filter, decoded);
    ItemsOfSpec(entries, [], filter, decoded);
    forall n, c | n in Built(entries, filter, decoded) && c in n.children
      ensures c.children == []
    {
      if n in FolderNodes(dirs, filter, decoded) {
        var d :| d in dirs && FolderShown(d, filter, decoded) && n == FolderNode(d, filter, decoded);
        ItemsOfSpec(d.children, [d.name], filter, decoded);
      }
    }
  }

  /** The first loop of `refreshTree`: the visible directories, in order. */
  method CollectFolders(entries: seq<Node>) returns (folders: seq<Node>)
    ensures folders == VisibleDirs(entries)
  {
    folders := [];
    for i := 0 to |entries|
      invariant folders == VisibleDirs(entries[..i])
    {
      VisibleDirsStep(entries, i);
      var name := entries[i].name;
      if HasPrefix(name, ".") || HasPrefix(name, "_") {
        continue;
      }
      if entries[i].Dir? {
        folders := folders + [entries[i]];
      }
    }
    assert entries[..|entries|] == entries;
  }

  /** The second loop of `refreshTree`: a node per folder that is shown. */
  method AddFolderNodes(folders: seq<Node>, filter: string, decoded: map<Path, Entry>) returns (nodes: seq<TreeNode>)
    requires forall d :: d in folders ==> d.Dir?
    ensures nodes == FolderNodes(folders, filter, decoded)
  {
    nodes := [];
    for j := 0 to |folders|
      invariant nodes == FolderNodes(folders[..j], filter, decoded)
    {
      FolderNodesStep(folders, filter, decoded, j);
      var d := folders[j];
      var items, count := AddItemNodes(d.children, [d.name], filter, decoded);
      if count > 0 || filter == "" {
        nodes := nodes + [TreeNode(FolderIcon + " " + d.name, Some([d.name]), items)];
      }
    }
    assert folders[..|folders|] == folders;
  }

  /** The tree view: the children of its root, the selected node, the right
    * pane's title and page, and the entry the view pane shows. */
  class TreeView {
    var root: seq<TreeNode>
    var current: Option<TreeNode>
    var rightTitle: string
    var rightPage: string
    var currentPath: Path              // `uiCurrentPath`; [] when no entry is loaded
    var currentEnt: Option<Entry>      // `uiCurrentEnt`
    var showSensitive: bool            // `uiShowSensitive`

    constructor ()
      ensures root == [] && current.None? && currentPath == [] && currentEnt.None? && !showSensitive
    {
      root, current, rightTitle, rightPage := [], None, "", "";
      currentPath, currentEnt, showSensitive := [], None, false;
    }

    /** The root node: no text and no reference, the built nodes below it. */
    function RootNode(): TreeNode
      reads this
    {
      TreeNode("", None, root)
    }

    /** `refreshTree`: clear the root; on a readable data directory add the shown
      * folders, then the root items; with no entry loaded show the key bindings. */
    method Refresh(listing: Option<seq<Node>>, filter: string, decoded: map<Path, Entry>)
      modifies this`root, this`rightTitle, this`rightPage
      ensures listing.None? ==> root == []
      ensures listing.Some? ==> root == Built(listing.value, filter, decoded)
      ensures listing.Some? && currentPath == [] ==> rightPage == "empty" && rightTitle == " Keybindings "
      ensures listing.None? || currentPath != [] ==> rightPage == old(rightPage) && rightTitle == old(rightTitle)
    {
      root := [];
      if listing.None? {
        return;
      }
      var entries := listing.value;
      var folders := CollectFolders(entries);
      var folderNodes := AddFolderNodes(folders, filter, decoded);
      var items, _ := AddItemNodes(entries, [], filter, decoded);
      root := folderNodes + items;
      if currentPath == [] {
        rightTitle, rightPage := " Keybindings ", "empty";
      }
    }

    /** `selectTreePath`: select the first node in pre-order whose reference is
      * `path`; when there is none the selection stays. */
    method SelectTreePath(path: Path)
      modifies this`current
      ensures FindNode(RootNode(), path).Some? ==> current == FindNode(RootNode(), path)
      ensures FindNode(RootNode(), path).None? ==> current == old(current)
    {
      var found := FindNode(RootNode(), path);
      if found.Some? {
        current := found;
      }
    }

    /** `loadEntry`: an entry that can be read, decrypted and parsed becomes the
      * current one, hidden, and its title heads the content page; otherwise
      * nothing changes. Rendering the view of a note clears the loaded entry's
      * attachments. */
    method LoadEntry(decoded: map<Path, Entry>, path: Path)
      modifies this`currentPath, this`currentEnt, this`showSensitive, this`rightTitle, this`rightPage
      ensures path !in decoded ==>
        currentPath == old(currentPath) && currentEnt == old(currentEnt) && showSensitive == old(showSensitive) &&
        rightTitle == old(rightTitle) && rightPage == old(rightPage)
      ensures path in decoded ==>
        currentPath == path && !showSensitive && rightPage == "content" &&
        currentEnt == Some(if decoded[path].kind == "Note" then decoded[path].(attachments := []) else decoded[path]) &&
        rightTitle == " " + EntryTypeIcon(decoded[path].kind) + " " + decoded[path].title + " "
    {
      if path !in decoded {
        return;
      }
      var ent := decoded[path];
      currentEnt, currentPath, showSensitive := Some(ent), path, false;
      if ent.kind == "Note" {
        currentEnt := Some(ent.(attachments := []));
      }
      rightTitle := " " + EntryTypeIcon(ent.kind) + " " + ent.title + " ";
      rightPage := "content";
    }
  }

  // ---------------------------------------------------------------------------
  // Pre-order search
  // ---------------------------------------------------------------------------

  /** The search of `selectTreePath`: the node itself, then its children in order. */
  function FindNode(n: TreeNode, path: Path): Option<TreeNode>
    decreases n, 1
  {
    if n.reference == Some(path) then Some(n) else FindIn(n.children, path)
  }

  function FindIn(nodes: seq<TreeNode>, path: Path): Option<TreeNode>
    decreases nodes, 0
  {
    if nodes == [] then None
    else
      var r := FindNode(nodes[0], path);
      if r.Some? then r else FindIn(nodes[1..], path)
  }

  /** The nodes of a tree in pre-order. */
  function Preorder(n: TreeNode): (ns: seq<TreeNode>)
    ensures ns != [] && ns[0] == n
    decreases n, 1
  {
    [n] + PreorderAll(n.children)
  }

  function PreorderAll(nodes: seq<TreeNode>): seq<TreeNode>
    decreases nodes, 0
  {
    if nodes == [] then [] else Preorder(nodes[0]) + PreorderAll(nodes[1..])
  }

  /** The first node of a list with the given reference. */
  function FirstWith(ns: seq<TreeNode>, path: Path): (r: Option<TreeNode>)
    ensures r.Some? <==> exists i :: 0 <= i < |ns| && ns[i].reference == Some(path)
    ensures r.Some? ==> exists i :: 0 <= i < |ns| && ns[i] == r.value && ns[i].reference == Some(path) &&
                                  forall j :: 0 <= j < i ==> ns[j].reference != Some(path)
  {
    if ns == [] then None
    else if ns[0].reference == Some(path) then Some(ns[0])
    else
      var r := FirstWith(ns[1..], path);
      assert forall i :: 1 <= i < |ns| ==> ns[i] == ns[1..][i - 1];
      r
  }

  lemma FirstWithConcat(a: seq<TreeNode>, b: seq<TreeNode>, path: Path)
    ensures FirstWith(a + b, path) == if FirstWith(a, path).Some? then FirstWith(a, path) else FirstWith(b, path)
  {
    if a != [] {
      assert (a + b)[1..] == a[1..] + b;
      FirstWithConcat(a[1..], b, path);
    } else {
      assert a + b == b;
    }
  }

  /** The depth-first search selects the first node of the pre-order listing whose
    * reference is the path. */
  lemma {:induction false} FindNodeIsFirst(n: TreeNode, path: Path)
    ensures FindNode(n, path) == FirstWith(Preorder(n), path)
    decreases n, 1
  {
    FirstWithConcat([n], PreorderAll(n.children), path);
    FindInIsFirst(n.children, path);
  }

  lemma {:induction false} FindInIsFirst(nodes: seq<TreeNode>, path: Path)
    ensures FindIn(nodes, path) == FirstWith(PreorderAll(nodes), path)
    decreases nodes, 0
  {
    if nodes != [] {
      FindNodeIsFirst(nodes[0], path);
      FindInIsFirst(nodes[1..], path);
      FirstWithConcat(Preorder(nodes[0]), PreorderAll(nodes[1..]), path);
    }
  }
}
