/** The vault directory as the model sees it: a tree of named files and
  * directories, each directory's children in the order the directory is read
  * (by name), and the naming rules shared by the code that walks it. */
module DirTree {
  import opened Text

  datatype Node = File(name: string) | Dir(name: string, children: seq<Node>)

  /** A path below the data directory, one name per level. */
  type Path = seq<string>

  /** A directory that is never shown or walked into: its name starts with "." or "_". */
  predicate Hidden(name: string)
  {
    HasPrefix(name, ".") || HasPrefix(name, "_")
  }

  /** `filepath.Ext`: the suffix from the last "." of the final element, or "". */
  function Ext(name: string): (e: string)
    ensures e == [] || e[0] == '.'
  {
    if name == [] || name[|name| - 1] == '/' then []
    else if name[|name| - 1] == '.' then "."
    else
      var e := Ext(name[..|name| - 1]);
      if e == [] then [] else e + [name[|name| - 1]]
  }

  /** The extension is a suffix of the name. */
  lemma {:induction false} ExtIsSuffix(name: string)
    ensures HasSuffix(name, Ext(name))
  {
    if name != [] && name[|name| - 1] != '/' && name[|name| - 1] != '.' {
      var init := name[..|name| - 1];
      ExtIsSuffix(init);
      var e := Ext(init);
      if e != [] {
        assert name[|name| - |e| - 1..] == init[|init| - |e|..] + [name[|name| - 1]];
      }
    }
  }

  /** One more character that is neither a separator nor a dot extends a
    * non-empty extension. */
  lemma ExtStep(name: string, c: char)
    requires c != '/' && c != '.' && Ext(name) != []
    ensures Ext(name + [c]) == Ext(name) + [c]
  {
    assert (name + [c])[..|name|] == name;
  }

  /** A name ending in ".pb" has the extension ".pb". */
  lemma ExtOfPbSuffix(name: string)
    requires HasSuffix(name, ".pb")
    ensures Ext(name) == ".pb"
  {
    var n := |name|;
    var t := name[..n - 2];
    assert t == name[..n - 3] + ".";
    assert Ext(t) == "." by {
      assert t[|t| - 1] == '.';
    }
    assert name[..n - 1] == t + ['p'];
    ExtStep(t, 'p');
    assert name == name[..n - 1] + ['b'];
    ExtStep(name[..n - 1], 'b');
  }

  /** For a name without separators, having the extension ".pb" is ending in ".pb",
    * so `filepath.Ext(n) == ".pb"` and `strings.HasSuffix(n, ".pb")` agree. */
  lemma ExtPb(name: string)
    ensures Ext(name) == ".pb" <==> HasSuffix(name, ".pb")
  {
    ExtIsSuffix(name);
    if HasSuffix(name, ".pb") {
      ExtOfPbSuffix(name);
    }
  }
}
