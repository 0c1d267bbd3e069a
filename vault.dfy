/** The vault's record type (the protobuf `Entry` shared by the importers and the
  * terminal UI) and the rule every writer uses to pick a file name that does not
  * overwrite an existing one: `title.pb`, or else the first free `title_n.pb`. */
module Vault {
  import opened Wrappers
  import opened Text

  datatype PasswordHistory = PasswordHistory(password: string, date: string)

  datatype Attachment = Attachment(id: string, fileName: string, size: int)

  /** One vault entry; `kind` is the `Type` field ("Login", "Card", "Note", "File"). */
  datatype Entry = Entry(
    kind: string,
    title: string,
    username: string,
    password: string,
    link: string,
    totpSecret: string,
    cardNumber: string,
    expiry: string,
    cvv: string,
    customText: string,
    attachments: seq<Attachment>,
    history: seq<PasswordHistory>)

  /** An entry of the given type with every other field empty. */
  function NewEntry(kind: string, title: string, customText: string): (e: Entry)
    ensures e.kind == kind && e.title == title && e.customText == customText
    ensures e.username == e.password == e.link == e.totpSecret == []
    ensures e.cardNumber == e.expiry == e.cvv == []
    ensures e.attachments == [] && e.history == []
  {
    Entry(kind, title, [], [], [], [], [], [], [], customText, [], [])
  }

  /** The file name `<title>.pb`. */
  function PlainName(title: string): string
  {
    title + ".pb"
  }

  /** The file name `<title>_<k>.pb` (the `"%s_%d.pb"` pattern). */
  function SuffixName(title: string, k: nat): string
  {
    title + "_" + Itoa(k) + ".pb"
  }

  /** Different counters never produce the same suffixed name. */
  lemma SuffixNameInjective(title: string, a: nat, b: nat)
    requires SuffixName(title, a) == SuffixName(title, b)
    ensures a == b
  {
    var p := title + "_";
    assert SuffixName(title, a) == p + (Itoa(a) + ".pb");
    assert SuffixName(title, b) == p + (Itoa(b) + ".pb");
    var rest := SuffixName(title, a)[|p|..];
    assert rest == Itoa(a) + ".pb" == Itoa(b) + ".pb";
    DigitsBeforeDot(Itoa(a), rest);
    DigitsBeforeDot(Itoa(b), rest);
    ItoaInjective(a, b);
  }

  /** A digit string followed by ".pb" is recovered as the text before the first dot. */
  lemma DigitsBeforeDot(d: string, s: string)
    requires forall i :: 0 <= i < |d| ==> IsDigit(d[i])
    requires s == d + ".pb"
    ensures BeforeFirst(s, ".") == d
  {
    assert '.' !in d by {
      forall i | 0 <= i < |d| ensures d[i] != '.' { assert IsDigit(d[i]); }
    }
    assert HasPrefix(s, d + ['.']) by { assert s[..|d| + 1] == d + ['.']; }
    BeforeFirstOfChar(s, d, '.');
  }

  /** A subset is no larger than its superset. */
  lemma {:induction false} SubsetCard<T>(a: set<T>, b: set<T>)
    requires a <= b
    ensures |a| <= |b|
  {
    if a != {} {
      var x :| x in a;
      SubsetCard(a - {x}, b - {x});
    }
  }

  /** `k` is the counter the collision loop stops at: the least `k >= 1` whose
    * suffixed name is not taken. */
  ghost predicate IsFirstFree(title: string, taken: set<string>, k: nat)
  {
    k >= 1 && SuffixName(title, k) !in taken &&
    forall j :: 1 <= j < k ==> SuffixName(title, j) in taken
  }

  /** There is only one such counter. */
  lemma FirstFreeUnique(title: string, taken: set<string>, k1: nat, k2: nat)
    requires IsFirstFree(title, taken, k1) && IsFirstFree(title, taken, k2)
    ensures k1 == k2
  {
  }

  /** The counter loop: try `title_1.pb`, `title_2.pb`, ... until one is free.
    * `taken` holds the names Stat does not report missing, errors included; it is
    * finite here, so the loop stops because the names tried are distinct and all
    * taken. */
  method FirstFreeSuffix(title: string, taken: set<string>) returns (k: nat)
    ensures IsFirstFree(title, taken, k)
  {
    k := 1;
    ghost var tried: set<string> := {};
    while SuffixName(title, k) in taken
      invariant k >= 1
      invariant tried <= taken && |tried| == k - 1
      invariant forall j :: 1 <= j < k ==> SuffixName(title, j) in taken
      invariant forall j :: j >= k ==> SuffixName(title, j) !in tried
      decreases |taken| - |tried|
    {
      ghost var name := SuffixName(title, k);
      forall j | j >= k + 1
        ensures SuffixName(title, j) !in tried + {name}
      {
        if SuffixName(title, j) == name {
          SuffixNameInjective(title, j, k);
        }
      }
      tried := tried + {name};
      SubsetCard(tried, taken);
      k := k + 1;
    }
  }

  /** The name a writer uses for `title` in a directory whose existing names are
    * `taken`: `suffix` is 0 when `title.pb` is free, otherwise the counter chosen. */
  method ChooseFileName(title: string, taken: set<string>) returns (name: string, suffix: nat)
    ensures name !in taken
    ensures suffix == 0 <==> PlainName(title) !in taken
    ensures suffix == 0 ==> name == PlainName(title)
    ensures suffix > 0 ==> IsFirstFree(title, taken, suffix) && name == SuffixName(title, suffix)
  {
    name, suffix := PlainName(title), 0;
    if name in taken {
      suffix := FirstFreeSuffix(title, taken);
      name := SuffixName(title, suffix);
    }
  }

  /** What `os.Stat` reports for a candidate name: the file exists, it does not
    * (`os.IsNotExist`), or some other error (no permission on the folder, a name
    * longer than the file system allows, ...). */
  datatype StatReport = Present | Missing | StatError

  /** The counter loop as written stops at `k` exactly when `title_k.pb` is the
    * first candidate Stat reports missing: an error counts as taken. */
  ghost predicate LoopStopsAt(title: string, stat: string -> StatReport, k: nat)
  {
    k >= 1 && stat(SuffixName(title, k)) == Missing &&
    forall j :: 1 <= j < k ==> stat(SuffixName(title, j)) != Missing
  }

  /** When the names Stat does not report missing are the finite set `taken`, the
    * loop as written stops at the first free counter. */
  lemma FirstFreeIsLoopStop(title: string, stat: string -> StatReport, taken: set<string>, k: nat)
    requires forall n :: stat(n) != Missing <==> n in taken
    requires IsFirstFree(title, taken, k)
    ensures LoopStopsAt(title, stat, k)
  {
  }

  /** A Stat error for every candidate (a folder without search permission, a
    * sanitised title too long for a file name) leaves no counter at which the loop
    * as written stops: it runs forever. */
  lemma PersistentStatErrorLoops(title: string, stat: string -> StatReport)
    requires forall n :: stat(n) == StatError
    ensures forall k :: !LoopStopsAt(title, stat, k)
  {
  }

  /** The collision rule with Stat errors reported instead of counted as taken:
    * `present` holds the names Stat reports existing. The plain name is used when
    * it is missing, otherwise the first counter whose name is not present; an
    * error on the name the rule would use is returned as an error. */
  method ChooseFileNameChecked(title: string, present: set<string>, stat: string -> StatReport)
    returns (r: Result<string>)
    requires forall n :: stat(n) == Present <==> n in present
    ensures r.Ok? ==> stat(r.value) == Missing
    ensures r.Ok? && stat(PlainName(title)) == Missing ==> r.value == PlainName(title)
    ensures r.Ok? && stat(PlainName(title)) != Missing ==>
      exists k: nat :: IsFirstFree(title, present, k) && r.value == SuffixName(title, k)
    ensures r.Err? <==>
      stat(PlainName(title)) == StatError ||
      (stat(PlainName(title)) == Present &&
       exists k: nat :: IsFirstFree(title, present, k) && stat(SuffixName(title, k)) == StatError)
  {
    var plain := stat(PlainName(title));
    if plain == Missing {
      return Ok(PlainName(title));
    }
    if plain == StatError {
      return Err("stat " + PlainName(title));
    }
    var k := FirstFreeSuffix(title, present);
    var name := SuffixName(title, k);
    if stat(name) == StatError {
      r := Err("stat " + name);
    } else {
      r := Ok(name);
    }
    forall k2: nat | IsFirstFree(title, present, k2) ensures k2 == k {
      FirstFreeUnique(title, present, k, k2);
    }
  }

  // ---------------------------------------------------------------------------
  // Batches of writes that never overwrite
  // ---------------------------------------------------------------------------

  /** The keys written by a batch; `None` marks a position that wrote nothing. */
  function WrittenKeys<K>(written: seq<Option<(K, Entry)>>): (ks: set<K>)
    ensures forall j :: 0 <= j < |written| && written[j].Some? ==> written[j].value.0 in ks
  {
    if written == [] then {}
    else
      var init, last := written[..|written| - 1], written[|written| - 1];
      assert forall j :: 0 <= j < |init| ==> init[j] == written[j];
      WrittenKeys(init) + (if last.Some? then {last.value.0} else {})
  }

  /** The number of positions that wrote a file. */
  function WriteCount<K>(written: seq<Option<(K, Entry)>>): (n: nat)
    ensures n <= |written|
  {
    if written == [] then 0
    else WriteCount(written[..|written| - 1]) + (if written[|written| - 1].Some? then 1 else 0)
  }

  /** Every recorded write created a new file holding its entry, no two writes share
    * a file, the files that existed before are untouched, and nothing else exists. */
  ghost predicate FreshWrites<K>(disk0: map<K, Entry>, disk: map<K, Entry>, written: seq<Option<(K, Entry)>>)
  {
    (forall j :: 0 <= j < |written| && written[j].Some? ==>
       written[j].value.0 !in disk0 && written[j].value.0 in disk &&
       disk[written[j].value.0] == written[j].value.1) &&
    (forall j, k :: 0 <= j < k < |written| && written[j].Some? && written[k].Some? ==>
       written[j].value.0 != written[k].value.0) &&
    (forall n :: n in disk0 ==> n in disk && disk[n] == disk0[n]) &&
    disk.Keys == disk0.Keys + WrittenKeys(written)
  }

  lemma FreshWritesEmpty<K>(disk0: map<K, Entry>)
    ensures FreshWrites(disk0, disk0, [])
  {
  }

  /** Writing `e` under a key that is not on disk extends a batch of fresh writes. */
  lemma FreshWritesAppend<K>(disk0: map<K, Entry>, disk: map<K, Entry>,
                             written: seq<Option<(K, Entry)>>, key: K, e: Entry)
    requires FreshWrites(disk0, disk, written) && key !in disk
    ensures FreshWrites(disk0, disk[key := e], written + [Some((key, e))])
    ensures WriteCount(written + [Some((key, e))]) == WriteCount(written) + 1
  {
    var w := written + [Some((key, e))];
    assert w[..|w| - 1] == written;
    assert WrittenKeys(w) == WrittenKeys(written) + {key};
    forall j | 0 <= j < |written| && written[j].Some?
      ensures written[j].value.0 != key
    {
      assert written[j].value.0 in disk;
    }
  }

  /** A position that writes nothing extends a batch of fresh writes. */
  lemma FreshWritesSkip<K>(disk0: map<K, Entry>, disk: map<K, Entry>, written: seq<Option<(K, Entry)>>)
    requires FreshWrites(disk0, disk, written)
    ensures FreshWrites(disk0, disk, written + [None])
    ensures WriteCount(written + [None]) == WriteCount(written)
  {
    var w := written + [None];
    assert w[..|w| - 1] == written;
    assert WrittenKeys(w) == WrittenKeys(written);
  }
}
