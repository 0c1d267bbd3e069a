/** The controller of the Electron store (`src/app/app.js`): the menu built by walking
    the password-store directory, the flat list of leaves used by search, the view
    stack of directory navigation, the one-second OTP countdown and the order of the
    git calls of a sync.  The directory listing, the decrypted file contents, the
    fuzzy matcher and the git results are inputs. */
module StoreIndex {
  import opened Wrappers
  import opened Text
  import ContentParser
  import Totp

  // ---------------------------------------------------------------------------
  // The directory walk: getAllCredentials
  // ---------------------------------------------------------------------------

  /** What `fs.statSync` reports for a directory entry, in `readdirSync` order:
      `OtherNode` is anything that is neither a file nor a directory. */
  datatype FsNode =
    | FileNode(name: string)
    | DirNode(name: string, children: seq<FsNode>)
    | OtherNode(name: string)

  /** A menu item: a file (`file: true`) or a directory (`directory: true`) with its
      children. */
  datatype Item =
    | Leaf(name: string, path: string)
    | Branch(name: string, path: string, child: seq<Item>)

  /** `path.join(dir, item)` for the names a directory listing yields: never empty,
      never `.` or `..` and free of `/`, where `path.join` only inserts the
      separator (hidden names, the only other case, are skipped by the walk). The
      two differ when `dir` itself ends in `/` or is not normalised, where
      `path.join` would drop the doubled separator; the store directory is taken
      to be normalised. */
  function PathJoin(dir: string, name: string): (p: string)
    ensures HasPrefix(p, dir) && HasSuffix(p, name)
  {
    dir + "/" + name
  }

  /** `String.prototype.length`: the number of UTF-16 code units of `s`; a code
      point above U+FFFF takes two (a surrogate pair). */
  function Utf16Length(s: string): (n: nat)
    ensures |s| <= n <= 2 * |s|
    ensures n == 0 <==> s == []
    ensures (forall i :: 0 <= i < |s| ==> s[i] < 0x10000 as char) ==> n == |s|
  {
    if s == [] then 0
    else (if s[0] < 0x10000 as char then 1 else 2) + Utf16Length(s[1..])
  }

  /** `item.split('.gpg')[0]`. */
  function LeafName(name: string): (r: string)
    ensures HasPrefix(name, r)
    ensures !Contains(name, ".gpg") ==> r == name
  {
    BeforeFirst(name, ".gpg")
  }

  predicate Hidden(name: string)
  {
    HasPrefix(name, ".")
  }

  /** The menu items the walk builds from `nodes` under `dir`. */
  function Tree(dir: string, nodes: seq<FsNode>): seq<Item>
    decreases nodes
  {
    if nodes == [] then []
    else Tree(dir, nodes[..|nodes| - 1]) + ItemOf(dir, nodes[|nodes| - 1])
  }

  /** The item for one directory entry: none for a hidden name or a node that is
      neither a file nor a directory. */
  function ItemOf(dir: string, node: FsNode): seq<Item>
    decreases node
  {
    if Hidden(node.name) then []
    else match node
      case FileNode(name) => [Leaf(LeafName(name), PathJoin(dir, name))]
      case DirNode(name, children) => [Branch(name, PathJoin(dir, name), Tree(PathJoin(dir, name), children))]
      case OtherNode(_) => []
  }

  /** The leaves of a menu in pre-order: what the walk pushes onto `flatNames`. */
  function LeafItems(items: seq<Item>): seq<Item>
    decreases items
  {
    if items == [] then []
    else LeafItems(items[..|items| - 1]) + LeavesOf(items[|items| - 1])
  }

  function LeavesOf(item: Item): seq<Item>
    decreases item
  {
    match item
    case Leaf(_, _) => [item]
    case Branch(_, _, child) => LeafItems(child)
  }

  /** Only leaves end up in `flatNames`: directories never do. */
  lemma {:induction false} LeafItemsAreLeaves(items: seq<Item>)
    ensures forall j :: 0 <= j < |LeafItems(items)| ==> LeafItems(items)[j].Leaf?
    decreases items
  {
    if items != [] {
      var init, last := items[..|items| - 1], items[|items| - 1];
      LeafItemsAreLeaves(init);
      var a: seq<Item>, b: seq<Item> := LeafItems(init), LeavesOf(last);
      if last.Branch? {
        LeafItemsAreLeaves(last.child);
        assert b == LeafItems(last.child);
      } else {
        assert b == [last];
      }
      forall j | 0 <= j < |a + b| ensures (a + b)[j].Leaf? {
        if j < |a| {
          assert (a + b)[j] == a[j];
        } else {
          assert (a + b)[j] == b[j - |a|];
        }
      }
    }
  }

  lemma {:induction false} LeafItemsAppend(xs: seq<Item>, ys: seq<Item>)
    ensures LeafItems(xs + ys) == LeafItems(xs) + LeafItems(ys)
    decreases ys
  {
    if ys == [] {
      assert xs + ys == xs;
    } else {
      assert (xs + ys)[..|xs + ys| - 1] == xs + ys[..|ys| - 1];
      LeafItemsAppend(xs, ys[..|ys| - 1]);
    }
  }

  /** A hidden entry contributes nothing at any depth; shown entries keep the order
      of the listing. */
  lemma TreeSkipsHidden(dir: string, nodes: seq<FsNode>, node: FsNode)
    requires Hidden(node.name)
    ensures Tree(dir, nodes + [node]) == Tree(dir, nodes)
  {
    assert (nodes + [node])[..|nodes|] == nodes;
  }

  /** Every item of the menu, at every depth, sits at `dir/name` below its parent
      for a name that is not hidden. */
  predicate ShownUnder(dir: string, items: seq<Item>)
    decreases items
  {
    forall j :: 0 <= j < |items| ==>
      && HasPrefix(items[j].path, dir + "/") && !Hidden(items[j].path[|dir| + 1..])
      && (items[j].Branch? ==> ShownUnder(items[j].path, items[j].child))
  }

  lemma {:induction false} TreeShownUnder(dir: string, nodes: seq<FsNode>)
    ensures ShownUnder(dir, Tree(dir, nodes))
    decreases nodes
  {
    if nodes != [] {
      var init, last := nodes[..|nodes| - 1], nodes[|nodes| - 1];
      TreeShownUnder(dir, init);
      var t, e := Tree(dir, init), ItemOf(dir, last);
      if e != [] {
        assert !Hidden(last.name) && e[0].path == PathJoin(dir, last.name);
        assert e[0].path[|dir| + 1..] == last.name;
        if last.DirNode? {
          TreeShownUnder(PathJoin(dir, last.name), last.children);
        }
      }
      forall j | 0 <= j < |t + e|
        ensures && HasPrefix((t + e)[j].path, dir + "/") && !Hidden((t + e)[j].path[|dir| + 1..])
                && ((t + e)[j].Branch? ==> ShownUnder((t + e)[j].path, (t + e)[j].child))
      {
        if j < |t| {
          assert (t + e)[j] == t[j];
        } else {
          assert (t + e)[j] == e[0];
        }
      }
    }
  }

  // ---------------------------------------------------------------------------
  // Removing one file: fs.unlinkSync
  // ---------------------------------------------------------------------------

  /** The listing of `dir` after `fs.unlinkSync(p)`: every file whose walked path is
      `p` is gone, at any depth, and nothing else changes. */
  function Unlink(dir: string, nodes: seq<FsNode>, p: string): seq<FsNode>
    decreases nodes
  {
    if nodes == [] then []
    else Unlink(dir, nodes[..|nodes| - 1], p) + UnlinkNode(dir, nodes[|nodes| - 1], p)
  }

  function UnlinkNode(dir: string, node: FsNode, p: string): seq<FsNode>
    decreases node
  {
    match node
    case FileNode(name) => if PathJoin(dir, name) == p then [] else [node]
    case DirNode(name, children) => [DirNode(name, Unlink(PathJoin(dir, name), children, p))]
    case OtherNode(_) => [node]
  }

  /** The items of a list without those at path `p`, in order. */
  function DropPath(items: seq<Item>, p: string): (r: seq<Item>)
    ensures forall j :: 0 <= j < |r| ==> r[j].path != p
    ensures forall it :: it in r <==> it in items && it.path != p
    decreases items
  {
    if items == [] then []
    else
      var init, last := items[..|items| - 1], items[|items| - 1];
      assert items == init + [last];
      DropPath(init, p) + (if last.path == p then [] else [last])
  }

  lemma {:induction false} DropPathAppend(xs: seq<Item>, ys: seq<Item>, p: string)
    ensures DropPath(xs + ys, p) == DropPath(xs, p) + DropPath(ys, p)
    decreases ys
  {
    if ys == [] {
      assert xs + ys == xs;
    } else {
      assert (xs + ys)[..|xs + ys| - 1] == xs + ys[..|ys| - 1];
      DropPathAppend(xs, ys[..|ys| - 1], p);
    }
  }

  lemma {:induction false} TreeAppend(dir: string, xs: seq<FsNode>, ys: seq<FsNode>)
    ensures Tree(dir, xs + ys) == Tree(dir, xs) + Tree(dir, ys)
    decreases ys
  {
    if ys == [] {
      assert xs + ys == xs;
    } else {
      assert (xs + ys)[..|xs + ys| - 1] == xs + ys[..|ys| - 1];
      TreeAppend(dir, xs, ys[..|ys| - 1]);
    }
  }

  /** The leaves the walk finds after the unlink are those it found before, in the
      same order, without the ones at path `p`. */
  lemma {:induction false} UnlinkLeaves(dir: string, nodes: seq<FsNode>, p: string)
    ensures LeafItems(Tree(dir, Unlink(dir, nodes, p))) == DropPath(LeafItems(Tree(dir, nodes)), p)
    decreases nodes
  {
    if nodes != [] {
      var init, last := nodes[..|nodes| - 1], nodes[|nodes| - 1];
      UnlinkLeaves(dir, init, p);
      UnlinkNodeLeaves(dir, last, p);
      TreeAppend(dir, Unlink(dir, init, p), UnlinkNode(dir, last, p));
      LeafItemsAppend(Tree(dir, Unlink(dir, init, p)), Tree(dir, UnlinkNode(dir, last, p)));
      LeafItemsAppend(Tree(dir, init), ItemOf(dir, last));
      DropPathAppend(LeafItems(Tree(dir, init)), LeafItems(ItemOf(dir, last)), p);
    }
  }

  /** After the unlink no leaf of the rebuilt menu has path `p`, and every other
      leaf the walk found before is still found. */
  lemma DeletedNotListed(dir: string, disk: seq<FsNode>, p: string)
    ensures forall it :: it in LeafItems(Tree(dir, Unlink(dir, disk, p))) ==> it.Leaf? && it.path != p
    ensures forall it :: it in LeafItems(Tree(dir, disk)) && it.path != p ==> it in LeafItems(Tree(dir, Unlink(dir, disk, p)))
  {
    UnlinkLeaves(dir, disk, p);
    LeafItemsAreLeaves(Tree(dir, Unlink(dir, disk, p)));
  }

  lemma {:induction false} UnlinkNodeLeaves(dir: string, node: FsNode, p: string)
    ensures LeafItems(Tree(dir, UnlinkNode(dir, node, p))) == DropPath(LeafItems(ItemOf(dir, node)), p)
    decreases node
  {
    match node {
      case FileNode(name) => UnlinkFileLeaves(dir, name, p);
      case DirNode(name, children) =>
        UnlinkLeaves(PathJoin(dir, name), children, p);
        UnlinkDirLeaves(dir, name, children, p);
      case OtherNode(name) =>
        assert Tree(dir, [node]) == ItemOf(dir, node) by { assert [node][..0] == []; }
    }
  }

  lemma UnlinkFileLeaves(dir: string, name: string, p: string)
    ensures LeafItems(Tree(dir, UnlinkNode(dir, FileNode(name), p))) == DropPath(LeafItems(ItemOf(dir, FileNode(name))), p)
  {
    var node := FileNode(name);
    var leaf := Leaf(LeafName(name), PathJoin(dir, name));
    if PathJoin(dir, name) != p {
      assert Tree(dir, [node]) == ItemOf(dir, node) by { assert [node][..0] == []; }
    }
    if !Hidden(name) {
      assert LeafItems([leaf]) == [leaf] by { assert [leaf][..0] == []; }
      assert DropPath([leaf], p) == (if leaf.path == p then [] else [leaf]) by { assert [leaf][..0] == []; }
    }
  }

  /** The directory case of `UnlinkNodeLeaves`, given the result for its children. */
  lemma UnlinkDirLeaves(dir: string, name: string, children: seq<FsNode>, p: string)
    requires var q := PathJoin(dir, name);
      LeafItems(Tree(q, Unlink(q, children, p))) == DropPath(LeafItems(Tree(q, children)), p)
    ensures var node := DirNode(name, children);
      LeafItems(Tree(dir, UnlinkNode(dir, node, p))) == DropPath(LeafItems(ItemOf(dir, node)), p)
  {
    var q := PathJoin(dir, name);
    var node := DirNode(name, children);
    var u := UnlinkNode(dir, node, p);
    assert u == [DirNode(name, Unlink(q, children, p))];
    assert Tree(dir, u) == ItemOf(dir, u[0]) by { assert u[..0] == []; }
    if !Hidden(name) {
      var before := Branch(name, q, Tree(q, children));
      var after := Branch(name, q, Tree(q, Unlink(q, children, p)));
      assert LeafItems([before]) == LeafItems(Tree(q, children)) by { assert [before][..0] == []; }
      assert LeafItems([after]) == LeafItems(Tree(q, Unlink(q, children, p))) by { assert [after][..0] == []; }
    }
  }

  // ---------------------------------------------------------------------------
  // The controller
  // ---------------------------------------------------------------------------

  /** The countdown colour of `setRemainingColor`. */
  datatype Color = Blue | Green | Orange

  function ColorOf(remaining: int): (c: Color)
    ensures c == Blue <==> remaining >= 20
    ensures c == Orange <==> remaining < 10
  {
    if remaining >= 20 then Blue else if remaining >= 10 then Green else Orange
  }

  /** The git calls a sync makes, in order. */
  datatype GitOp = Status | Pull | Commit | Add | Push

  /** The calls `sync` would make when none fails: none offline, `pull` after a clean
      `status`, else `commit`, `add('.')` and `push`. */
  function SyncPlan(offline: bool, clean: bool): (ops: seq<GitOp>)
    ensures offline <==> ops == []
    ensures !offline ==> ops[0] == Status && (Pull in ops <==> clean) && (Push in ops <==> !clean)
  {
    if offline then []
    else if clean then [Status, Pull]
    else [Status, Commit, Add, Push]
  }

  /** The calls made when the calls in `rejects` fail: up to and including the first
      rejected one, since nothing catches the rejection. */
  function Performed(plan: seq<GitOp>, rejects: set<GitOp>): (done: seq<GitOp>)
    ensures |done| <= |plan| && done == plan[..|done|]
  {
    if plan == [] then []
    else if plan[0] in rejects then [plan[0]]
    else [plan[0]] + Performed(plan[1..], rejects)
  }

  /** Every call before the last one made succeeded, and the whole plan runs exactly
      when no call but possibly the last is rejected. */
  lemma {:induction false} PerformedStopsAtRejection(plan: seq<GitOp>, rejects: set<GitOp>)
    ensures var done := Performed(plan, rejects);
      && (forall j :: 0 <= j < |done| - 1 ==> done[j] !in rejects)
      && (done == plan <==> forall j :: 0 <= j < |plan| - 1 ==> plan[j] !in rejects)
  {
    if plan != [] && plan[0] !in rejects {
      PerformedStopsAtRejection(plan[1..], rejects);
      var done := Performed(plan, rejects);
      assert done == [plan[0]] + Performed(plan[1..], rejects);
      forall j | 0 <= j < |done| - 1 ensures done[j] !in rejects {
        if j > 0 {
          assert done[j] == Performed(plan[1..], rejects)[j - 1];
        }
      }
      if forall j :: 0 <= j < |plan| - 1 ==> plan[j] !in rejects {
        assert forall j :: 0 <= j < |plan[1..]| - 1 ==> plan[1..][j] == plan[j + 1];
      } else {
        var j :| 0 <= j < |plan| - 1 && plan[j] in rejects;
        assert j > 0 && plan[1..][j - 1] == plan[j];
      }
    }
  }

  lemma PerformedCons(op: GitOp, rest: seq<GitOp>, rejects: set<GitOp>)
    ensures Performed([op] + rest, rejects) == if op in rejects then [op] else [op] + Performed(rest, rejects)
  {
    assert ([op] + rest)[1..] == rest;
  }

  /** The awaited git calls of `sync`, stopping at the first rejected one. */
  method RunGit(offline: bool, clean: bool, rejects: set<GitOp>) returns (calls: seq<GitOp>, ok: bool)
    ensures calls == Performed(SyncPlan(offline, clean), rejects)
    ensures ok <==> AllSucceed(calls, rejects)
  {
    calls, ok := [], true;
    if offline {
      return;
    }
    calls := [Status];
    if Status in rejects {
      PerformedCons(Status, if clean then [Pull] else [Commit, Add, Push], rejects);
      return calls, false;
    }
    if clean {
      PerformedCons(Status, [Pull], rejects);
      PerformedCons(Pull, [], rejects);
      calls := [Status, Pull];
      ok := Pull !in rejects;
      return;
    }
    PerformedCons(Status, [Commit, Add, Push], rejects);
    PerformedCons(Commit, [Add, Push], rejects);
    calls := [Status, Commit];
    if Commit in rejects {
      return calls, false;
    }
    PerformedCons(Add, [Push], rejects);
    calls := [Status, Commit, Add];
    if Add in rejects {
      return calls, false;
    }
    PerformedCons(Push, [], rejects);
    calls := [Status, Commit, Add, Push];
    ok := Push !in rejects;
  }

  /** Whether every call of the plan succeeds. */
  predicate AllSucceed(plan: seq<GitOp>, rejects: set<GitOp>)
  {
    forall j :: 0 <= j < |plan| ==> plan[j] !in rejects
  }

  /** The pass-store controller: the view shown (`undefined` after popping an empty
      stack), the view stack, the module-level `flatNames`, the credential shown and
      its countdown. `timerRunning` says whether the `$interval` is registered; it is
      cancelled only when another item is clicked, so it can outlive its
      credential. */
  class MainController {
    const directoryPath: string
    var menu: Option<seq<Item>>
    var stack: seq<Option<seq<Item>>>
    var flatNames: seq<Item>
    var cred: Option<ContentParser.Credential>
    var timerRunning: bool
    var remainingColor: Color

    /** While a credential is shown, the countdown runs only if it has an OTP code. */
    predicate Valid()
      reads this
    {
      timerRunning && cred.Some? ==> cred.value.otp.Some?
    }

    /** The controller as it starts: the menu of the store, the stack empty and
        `flatNames` holding every leaf. */
    constructor (dir: string, disk: seq<FsNode>)
      ensures Valid()
      ensures directoryPath == dir && menu == Some(Tree(dir, disk)) && stack == []
      ensures flatNames == LeafItems(Tree(dir, disk))
      ensures cred == None && !timerRunning
    {
      directoryPath := dir;
      stack := [];
      flatNames := [];
      cred := None;
      timerRunning := false;
      remainingColor := Orange;
      new;
      var items := Walk(dir, disk);
      menu := Some(items);
    }

    /** `getAllCredentials(dir, arr)`: the items of the listing, in order, while the
        leaves at every depth are appended to `flatNames`. */
    method Walk(dir: string, nodes: seq<FsNode>) returns (arr: seq<Item>)
      modifies this`flatNames
      ensures arr == Tree(dir, nodes)
      ensures flatNames == old(flatNames) + LeafItems(arr)
      decreases nodes, 1
    {
      arr := [];
      var i := 0;
      while i < |nodes|
        invariant 0 <= i <= |nodes|
        invariant arr == Tree(dir, nodes[..i])
        invariant flatNames == old(flatNames) + LeafItems(arr)
      {
        assert nodes[..i + 1][..i] == nodes[..i];
        var x := WalkItem(dir, nodes[i]);
        LeafItemsAppend(arr, x);
        arr := arr + x;
        i := i + 1;
      }
      assert nodes[..|nodes|] == nodes;
    }

    /** One step of the `forEach` in `getAllCredentials`: a hidden name is skipped, a
        file becomes a leaf pushed to `flatNames` as well, a directory a branch whose
        children are walked. */
    method WalkItem(dir: string, node: FsNode) returns (x: seq<Item>)
      modifies this`flatNames
      ensures x == ItemOf(dir, node)
      ensures flatNames == old(flatNames) + LeafItems(x)
      decreases node, 0
    {
      x := [];
      if HasPrefix(node.name, ".") {
        return;
      }
      var itemPath := PathJoin(dir, node.name);
      match node {
        case FileNode(name) =>
          var leaf := Leaf(LeafName(name), itemPath);
          x := [leaf];
          assert LeafItems(x) == LeafItems([]) + LeavesOf(leaf);
          flatNames := flatNames + [leaf];
        case DirNode(name, children) =>
          var child := Walk(itemPath, children);
          x := [Branch(name, itemPath, child)];
          assert LeafItems(x) == LeafItems([]) + LeavesOf(x[0]);
        case OtherNode(_) =>
      }
    }

    /** `onClick` on a directory: the current view goes onto the stack and the
        directory's children are shown; any countdown stops. */
    method OpenDirectory(item: Item)
      requires item.Branch?
      modifies this
      ensures stack == old(stack) + [old(menu)] && menu == Some(item.child)
      ensures cred == None && !timerRunning && flatNames == old(flatNames)
      ensures Valid()
    {
      cred := None;
      timerRunning := false;
      stack := stack + [menu];
      menu := Some(item.child);
    }

    /** `onClick` on a file: any countdown is cancelled and the credential cleared;
        then the credential parsed from the decrypted `content` is shown and the
        countdown starts when it has an OTP code. `content` is `None` when
        `decryptGPGFile` fails (it returns `undefined`, on which
        `getCredentialObject` throws); a throw leaves no credential shown. The stack
        is left as it is. */
    method OpenFile(item: Item, content: Option<string>, generate: string -> Option<string>, nowMs: nat)
      requires item.Leaf?
      modifies this
      ensures content.Some? && ContentParser.CredentialOf(content.value, generate, nowMs).Ok? ==>
        cred == Some(ContentParser.CredentialOf(content.value, generate, nowMs).value)
      ensures content.None? || ContentParser.CredentialOf(content.value, generate, nowMs).Err? ==> cred == None
      ensures timerRunning <==> cred.Some? && cred.value.otp.Some? && cred.value.otp.value.otp != ""
      ensures timerRunning ==> remainingColor == ColorOf(cred.value.otp.value.remainingTime)
      ensures !timerRunning ==> remainingColor == old(remainingColor)
      ensures stack == old(stack) && menu == old(menu) && flatNames == old(flatNames)
      ensures Valid()
    {
      cred := None;
      timerRunning := false;
      if content.None? {
        return;
      }
      var c := ContentParser.GetCredentialObject(content.value, generate, nowMs);
      if c.Err? {
        return;
      }
      cred := Some(c.value);
      if c.value.otp.Some? && c.value.otp.value.otp != "" {
        remainingColor := ColorOf(c.value.otp.value.remainingTime);
        timerRunning := true;
      }
    }

    /** One tick of the countdown: one second less and the colour for it; at zero or
        below a fresh code and 30 seconds again. The tick throws, and `thrown` is
        set, when no credential is shown any more (`$scope.cred` is `null`), or when
        the fresh code cannot be generated; the countdown then stays decremented. */
    method Tick(generate: string -> Option<string>) returns (thrown: bool)
      requires Valid() && timerRunning
      modifies this
      ensures Valid() && timerRunning
      ensures old(cred).None? ==> thrown && cred == None && remainingColor == old(remainingColor)
      ensures old(cred).Some? ==> (
        && cred.Some?
        && var o, n := old(cred.value.otp.value), cred.value.otp.value;
        && cred.value == old(cred.value).(otp := Some(n))
        && n.otpUrl == o.otpUrl
        && (thrown <==> o.remainingTime <= 1 && generate(o.otpUrl).None?)
        && (!thrown ==> n.remainingTime == NextCountdown(o.remainingTime))
        && (!thrown ==> n.otp == (if o.remainingTime <= 1 then generate(o.otpUrl).value else o.otp))
        && (thrown ==> n.remainingTime == o.remainingTime - 1 && n.otp == o.otp)
        && remainingColor == ColorOf(n.remainingTime))
      ensures menu == old(menu) && stack == old(stack) && flatNames == old(flatNames)
    {
      thrown := false;
      if cred.None? {
        return true;
      }
      var c := cred.value;
      var info := c.otp.value;
      var remaining: int := info.remainingTime - 1;
      info := info.(remainingTime := remaining);
      remainingColor := ColorOf(remaining);
      if remaining <= 0 {
        var code := generate(info.otpUrl);
        if code.None? {
          thrown := true;
        } else {
          info := info.(otp := code.value, remainingTime := 30);
          remainingColor := ColorOf(30);
        }
      }
      cred := Some(c.(otp := Some(info)));
    }

    /** `back`: the view popped from the stack; popping an empty stack shows
        `undefined`. */
    method Back()
      modifies this
      ensures old(stack) == [] ==> stack == [] && menu == None
      ensures old(stack) != [] ==> stack + [menu] == old(stack)
      ensures flatNames == old(flatNames) && cred == old(cred) && timerRunning == old(timerRunning)
    {
      if |stack| == 0 {
        menu := None;
      } else {
        menu := stack[|stack| - 1];
        stack := stack[..|stack| - 1];
      }
    }

    /** `search`: an empty term pops one level (nothing on an empty stack), a term of
        one or two UTF-16 code units does nothing, and a longer term pushes the
        current view and shows the matches `fuzzysort` picked from `flatNames`. */
    method Search(term: string, matches: seq<Item>)
      requires forall j :: 0 <= j < |matches| ==> matches[j] in flatNames
      modifies this
      ensures term == [] && old(stack) != [] ==> stack + [menu] == old(stack)
      ensures (term == [] && old(stack) == []) || 0 < Utf16Length(term) < 3 ==> stack == old(stack) && menu == old(menu)
      ensures Utf16Length(term) >= 3 ==> stack == old(stack) + [old(menu)] && menu == Some(matches)
      ensures flatNames == old(flatNames) && cred == old(cred) && timerRunning == old(timerRunning)
    {
      var units := Utf16Length(term);
      if units == 0 {
        if |stack| == 0 {
          return;
        }
        menu := stack[|stack| - 1];
        stack := stack[..|stack| - 1];
        return;
      }
      if units < 3 {
        return;
      }
      stack := stack + [menu];
      menu := Some(matches);
    }

    /** The menu rebuilt from the listing `disk`: `flatNames` is never cleared, so
        every rebuild appends all leaves again. */
    method Rebuild(disk: seq<FsNode>)
      modifies this
      ensures menu == Some(Tree(directoryPath, disk))
      ensures flatNames == old(flatNames) + LeafItems(Tree(directoryPath, disk))
      ensures stack == old(stack) && cred == old(cred) && timerRunning == old(timerRunning)
      ensures remainingColor == old(remainingColor)
    {
      menu := Some([]);
      var items := Walk(directoryPath, disk);
      menu := Some(items);
    }

    /** `sync`: the git calls of the plan up to the first one that fails; only when
        all succeed is the menu rebuilt from `disk`. */
    method Sync(offline: bool, clean: bool, rejects: set<GitOp>, disk: seq<FsNode>) returns (calls: seq<GitOp>)
      modifies this
      ensures calls == Performed(SyncPlan(offline, clean), rejects)
      ensures AllSucceed(calls, rejects) ==> menu == Some(Tree(directoryPath, disk))
                                             && flatNames == old(flatNames) + LeafItems(Tree(directoryPath, disk))
      ensures !AllSucceed(calls, rejects) ==> menu == old(menu) && flatNames == old(flatNames)
      ensures stack == old(stack) && cred == old(cred) && timerRunning == old(timerRunning)
    {
      var ok;
      calls, ok := RunGit(offline, clean, rejects);
      if !ok {
        return;
      }
      Rebuild(disk);
    }

    /** `deleteCredential`: the file at `path` is unlinked from the store listed by
        `disk`; then the credential is cleared and the menu rebuilt from the listing
        without that file. When `unlinkSync` throws (`unlinkFails`) nothing else
        happens. The countdown is not cancelled: its later ticks find no
        credential. */
    method DeleteCredential(path: string, disk: seq<FsNode>, unlinkFails: bool)
      requires Valid()
      modifies this
      ensures unlinkFails ==> cred == old(cred) && menu == old(menu) && flatNames == old(flatNames)
      ensures !unlinkFails ==>
        && cred == None
        && menu == Some(Tree(directoryPath, Unlink(directoryPath, disk, path)))
        && flatNames == old(flatNames) + DropPath(LeafItems(Tree(directoryPath, disk)), path)
      ensures stack == old(stack) && timerRunning == old(timerRunning) && remainingColor == old(remainingColor)
      ensures Valid()
    {
      if unlinkFails {
        return;
      }
      cred := None;
      UnlinkLeaves(directoryPath, disk, path);
      Rebuild(Unlink(directoryPath, disk, path));
    }
  }

  /** The countdown after one tick. */
  function NextCountdown(r: int): (n: int)
    ensures r > 1 ==> n == r - 1
    ensures r <= 1 ==> n == 30
  {
    if r - 1 <= 0 then 30 else r - 1
  }

  /** The countdown after `k` ticks. */
  function Countdown(r: int, k: nat): int
  {
    if k == 0 then r else NextCountdown(Countdown(r, k - 1))
  }

  /** From any value in 1..30 the countdown walks down by one and wraps from 1 to
      30: after `k` ticks it is `(r - 1 - k) mod 30 + 1`, so it repeats every 30
      ticks. */
  lemma {:induction false} CountdownCycles(r: int, k: nat)
    requires 1 <= r <= 30
    ensures Countdown(r, k) == (r - 1 - k) % 30 + 1
  {
    if k > 0 {
      CountdownCycles(r, k - 1);
    }
  }
}
