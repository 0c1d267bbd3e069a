/** The vault walks of `internal/crypto/crypto.go`: `VaultHasEntries` and
  * `ReKeyEntries` visit the data directory in walk order, never descend into a
  * directory whose name starts with "." or "_", and look only at ".pb" files;
  * `ReKeyEntries` then re-encrypts every file of `_attachments`. */
module CryptoWalk {
  import opened Wrappers
  import opened Text
  import opened DirTree

  /** Whether the walk treats a file as an entry. */
  predicate IsEntryFile(name: string)
  {
    Ext(name) == ".pb"
  }

  /** The entry files under `nodes`, which sit in directory `dir`, in walk order. */
  function EntryFiles(nodes: seq<Node>, dir: Path): (ps: seq<Path>)
    decreases nodes
  {
    if nodes == [] then [] else NodeFiles(nodes[0], dir) + EntryFiles(nodes[1..], dir)
  }

  function NodeFiles(node: Node, dir: Path): (ps: seq<Path>)
    decreases node
  {
    match node
    case File(n) => if IsEntryFile(n) then [dir + [n]] else []
    case Dir(n, children) => if Hidden(n) then [] else EntryFiles(children, dir + [n])
  }

  /** Every path the walk yields lies below `dir`, passes only through directories
    * that are not hidden, and names an entry file. */
  ghost predicate WalkPath(dir: Path, p: Path)
  {
    |p| > |dir| && p[..|dir|] == dir && IsEntryFile(p[|p| - 1]) &&
    forall k :: |dir| <= k < |p| - 1 ==> !Hidden(p[k])
  }

  lemma {:induction false} EntryFilesShape(nodes: seq<Node>, dir: Path)
    ensures forall p :: p in EntryFiles(nodes, dir) ==> WalkPath(dir, p)
    decreases nodes
  {
    if nodes != [] {
      NodeFilesShape(nodes[0], dir);
      EntryFilesShape(nodes[1..], dir);
    }
  }

  lemma {:induction false} NodeFilesShape(node: Node, dir: Path)
    ensures forall p :: p in NodeFiles(node, dir) ==> WalkPath(dir, p)
    decreases node
  {
    match node
    case File(n) =>
    case Dir(n, children) =>
      if !Hidden(n) {
        EntryFilesShape(children, dir + [n]);
        forall p | p in EntryFiles(children, dir + [n])
          ensures WalkPath(dir, p)
        {
          assert p[..|dir + [n]|][..|dir|] == p[..|dir|];
          assert p[|dir|] == n;
        }
      }
  }

  /** `VaultHasEntries`: the walk stops at the first entry file it meets. */
  predicate HasEntries(nodes: seq<Node>)
    decreases nodes
  {
    nodes != [] && (NodeHasEntries(nodes[0]) || HasEntries(nodes[1..]))
  }

  predicate NodeHasEntries(node: Node)
    decreases node
  {
    match node
    case File(n) => IsEntryFile(n)
    case Dir(n, children) => !Hidden(n) && HasEntries(children)
  }

  /** The vault has entries exactly when the walk yields an entry file. */
  lemma {:induction false} HasEntriesIff(nodes: seq<Node>, dir: Path)
    ensures HasEntries(nodes) <==> EntryFiles(nodes, dir) != []
    decreases nodes
  {
    if nodes != [] {
      NodeHasEntriesIff(nodes[0], dir);
      HasEntriesIff(nodes[1..], dir);
    }
  }

  lemma {:induction false} NodeHasEntriesIff(node: Node, dir: Path)
    ensures NodeHasEntries(node) <==> NodeFiles(node, dir) != []
    decreases node
  {
    match node
    case File(n) =>
    case Dir(n, children) =>
      if !Hidden(n) {
        HasEntriesIff(children, dir + [n]);
      }
  }

  /** The files of `_attachments`: the non-directory entries of that top-level
    * directory, or none when it does not exist. */
  function AttachmentFiles(root: seq<Node>): (ps: seq<Path>)
    ensures forall p :: p in ps ==> |p| == 2 && p[0] == "_attachments"
  {
    if root == [] then []
    else if root[0].Dir? && root[0].name == "_attachments" then DirectFiles(root[0].children)
    else AttachmentFiles(root[1..])
  }

  function DirectFiles(children: seq<Node>): (ps: seq<Path>)
    ensures forall p :: p in ps ==> |p| == 2 && p[0] == "_attachments"
  {
    if children == [] then []
    else (if children[0].File? then [["_attachments", children[0].name]] else []) + DirectFiles(children[1..])
  }

  /** The attachment store is hidden, so the entry walk never enters it. */
  lemma AttachmentsNotWalked(root: seq<Node>)
    ensures forall p :: p in EntryFiles(root, []) ==> |p| > 0 && p[0] != "_attachments"
  {
    EntryFilesShape(root, []);
    forall p | p in EntryFiles(root, [])
      ensures |p| > 0 && p[0] != "_attachments"
    {
      assert WalkPath([], p);
      if |p| > 1 {
        assert !Hidden(p[0]);
        assert HasPrefix("_attachments", "_");
      } else {
        ExtPb(p[0]);
        assert !HasSuffix("_attachments", ".pb");
      }
    }
  }

  /** The path a walk of `dataDir` reports for the store-relative path `p`. */
  function FullPath(dataDir: string, p: Path): string
  {
    dataDir + "/" + Join(p, "/")
  }

  /** One pass of `ReKeyEntries` over `files`, stopping at the first failure;
    * the error message is `context`, the file's full path under `dataDir` and the
    * cause. */
  method ReKeyEach(dataDir: string, files: seq<Path>, failures: map<Path, string>, context: string)
    returns (err: Option<string>, done: seq<Path>)
    ensures |done| <= |files| && done == files[..|done|]
    ensures forall p :: p in done ==> p !in failures
    ensures err.None? <==> done == files
    ensures err.Some? ==>
      (|done| < |files| && files[|done|] in failures &&
       err.value == context + FullPath(dataDir, files[|done|]) + ": " + failures[files[|done|]])
  {
    done := [];
    for i := 0 to |files|
      invariant done == files[..i]
      invariant forall p :: p in done ==> p !in failures
    {
      if files[i] in failures {
        return Some(context + FullPath(dataDir, files[i]) + ": " + failures[files[i]]), done;
      }
      done := done + [files[i]];
    }
    assert files[..|files|] == files;
    err := None;
  }

  /** `ReKeyEntries`: re-encrypt the entry files of `dataDir` in walk order, then
    * the attachment files, stopping at the first file whose re-encryption fails
    * (`failures` maps such a file to its error); the error names that file. */
  method ReKeyEntries(dataDir: string, root: seq<Node>, failures: map<Path, string>) returns (r: Outcome, done: seq<Path>)
    ensures var files, all := EntryFiles(root, []), EntryFiles(root, []) + AttachmentFiles(root);
      |done| <= |all| && done == all[..|done|] &&
      (forall p :: p in done ==> p !in failures) &&
      (r == Pass <==> done == all) &&
      (r.Fail? ==> (all[|done|] in failures &&
         r.msg == (if |done| < |files| then "re-encrypting " else "re-encrypting attachment ")
                  + FullPath(dataDir, all[|done|]) + ": " + failures[all[|done|]]))
  {
    r, done := ReKeyInOrder(dataDir, EntryFiles(root, []), AttachmentFiles(root), failures);
  }

  /** The two passes of `ReKeyEntries`: the entry files, then the attachment files. */
  method ReKeyInOrder(dataDir: string, files: seq<Path>, atts: seq<Path>, failures: map<Path, string>)
    returns (r: Outcome, done: seq<Path>)
    ensures |done| <= |files + atts| && done == (files + atts)[..|done|]
    ensures forall p :: p in done ==> p !in failures
    ensures r == Pass <==> done == files + atts
    ensures r.Fail? ==> (files + atts)[|done|] in failures
    ensures r.Fail? ==>
      r.msg == (if |done| < |files| then "re-encrypting " else "re-encrypting attachment ")
               + FullPath(dataDir, (files + atts)[|done|]) + ": " + failures[(files + atts)[|done|]]
  {
    var all := files + atts;
    var err, entriesDone := ReKeyEach(dataDir, files, failures, "re-encrypting ");
    if err.Some? {
      assert all[..|entriesDone|] == entriesDone && all[|entriesDone|] == files[|entriesDone|];
      return Fail(err.value), entriesDone;
    }
    var attErr, attsDone := ReKeyEach(dataDir, atts, failures, "re-encrypting attachment ");
    done := files + attsDone;
    assert all[..|done|] == done;
    if attErr.Some? {
      assert all[|done|] == atts[|attsDone|];
      return Fail(attErr.value), done;
    }
    r := Pass;
  }
}
