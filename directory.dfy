/** The store directory's listing and the search filter of the file list. */
module Directory {
  import opened Wrappers
  import opened Text

  // ---------------------------------------------------------------------------
  // Listing the store directory
  // ---------------------------------------------------------------------------

  /** A name the listing shows: anything not starting with a dot. */
  predicate Shown(name: string)
  {
    !HasPrefix(name, ".")
  }

  /** The shown names of `names`, in their order. */
  function ShownNames(names: seq<string>): (r: seq<string>)
    ensures |r| <= |names|
  {
    if names == [] then []
    else
      var prior := ShownNames(names[..|names| - 1]);
      if Shown(names[|names| - 1]) then prior + [names[|names| - 1]] else prior
  }

  /** The listing holds exactly the names without a leading dot. */
  lemma {:induction false} ShownNamesIff(names: seq<string>, name: string)
    ensures name in ShownNames(names) <==> name in names && Shown(name)
  {
    if names != [] {
      var init := names[..|names| - 1];
      ShownNamesIff(init, name);
      assert names == init + [names[|names| - 1]];
    }
  }

  /** Filtering a listing again changes nothing. */
  lemma {:induction false} ShownNamesIdempotent(names: seq<string>)
    ensures ShownNames(ShownNames(names)) == ShownNames(names)
  {
    if names != [] {
      var init := names[..|names| - 1];
      var prior := ShownNames(init);
      ShownNamesIdempotent(init);
      if Shown(names[|names| - 1]) {
        assert (prior + [names[|names| - 1]])[..|prior|] == prior;
      }
    }
  }

  /** The listing keeps the directory's order. */
  lemma {:induction false} ShownNamesIsSubsequence(names: seq<string>)
    ensures SubsequenceOf(ShownNames(names), names)
  {
    if names != [] {
      var init := names[..|names| - 1];
      var last := names[|names| - 1];
      ShownNamesIsSubsequence(init);
      var prior := ShownNames(init);
      var pick: seq<nat> :| Picks(pick, prior, init);
      assert names == init + [last];
      if Shown(last) {
        PicksTaken(pick, prior, init, last);
      } else {
        PicksSkipped(pick, prior, init, last);
      }
    } else {
      assert Picks([], [], names);
    }
  }

  /** `UpdateList`: the directory's entries (`None` when it cannot be read),
    * without the dot-files, in directory order. */
  method UpdateList(listing: Option<seq<string>>) returns (items: seq<string>)
    ensures listing.None? ==> items == []
    ensures listing.Some? ==> items == ShownNames(listing.value)
  {
    if listing.None? {
      return [];
    }
    var files := listing.value;
    items := [];
    var i := 0;
    while i < |files|
      invariant 0 <= i <= |files|
      invariant items == ShownNames(files[..i])
    {
      assert files[..i + 1][..i] == files[..i];
      if Shown(files[i]) {
        items := items + [files[i]];
      }
      i := i + 1;
    }
    assert files[..i] == files;
  }

  // ---------------------------------------------------------------------------
  // Filtering the list by a search term
  // ---------------------------------------------------------------------------

  /** An item matches a term when its lower-cased text contains the term as typed. */
  predicate Matches(term: string, item: string)
  {
    Contains(Lower(item), term)
  }

  /** The items of `items` that match `term`, in their order. */
  function Matching(term: string, items: seq<string>): (r: seq<string>)
    ensures |r| <= |items|
  {
    if items == [] then []
    else
      var prior := Matching(term, items[..|items| - 1]);
      if Matches(term, items[|items| - 1]) then prior + [items[|items| - 1]] else prior
  }

  lemma {:induction false} MatchingIff(term: string, items: seq<string>, item: string)
    ensures item in Matching(term, items) <==> item in items && Matches(term, item)
  {
    if items != [] {
      var init := items[..|items| - 1];
      MatchingIff(term, init, item);
      assert items == init + [items[|items| - 1]];
    }
  }

  /** The filtered list is a sub-list: it keeps the order of the full list. */
  lemma {:induction false} MatchingIsSubsequence(term: string, items: seq<string>)
    ensures SubsequenceOf(Matching(term, items), items)
  {
    if items != [] {
      var init := items[..|items| - 1];
      var last := items[|items| - 1];
      MatchingIsSubsequence(term, init);
      var prior := Matching(term, init);
      var pick: seq<nat> :| Picks(pick, prior, init);
      assert items == init + [last];
      if Matches(term, last) {
        PicksTaken(pick, prior, init, last);
      } else {
        PicksSkipped(pick, prior, init, last);
      }
    } else {
      assert Picks([], [], items);
    }
  }

  lemma PicksTaken(pick: seq<nat>, part: seq<string>, whole: seq<string>, last: string)
    requires Picks(pick, part, whole)
    ensures Picks(pick + [|whole|], part + [last], whole + [last])
  {
    var pick', part', whole' := pick + [|whole|], part + [last], whole + [last];
    forall j | 0 <= j < |pick'| ensures pick'[j] < |whole'| && whole'[pick'[j]] == part'[j] {
      if j < |pick| {
        assert whole'[pick[j]] == whole[pick[j]];
      }
    }
  }

  lemma PicksSkipped(pick: seq<nat>, part: seq<string>, whole: seq<string>, last: string)
    requires Picks(pick, part, whole)
    ensures Picks(pick, part, whole + [last])
  {
    forall j | 0 <= j < |pick| ensures (whole + [last])[pick[j]] == whole[pick[j]] {}
  }

  /** `pick` lists, in increasing order, the positions in `whole` of the elements of `part`. */
  ghost predicate Picks(pick: seq<nat>, part: seq<string>, whole: seq<string>)
  {
    |pick| == |part| &&
    (forall j :: 0 <= j < |pick| ==> pick[j] < |whole| && whole[pick[j]] == part[j]) &&
    (forall j, l :: 0 <= j < l < |pick| ==> pick[j] < pick[l])
  }

  ghost predicate SubsequenceOf(part: seq<string>, whole: seq<string>)
  {
    exists pick :: Picks(pick, part, whole)
  }

  /** `GetFilteredList`: a term of at most two bytes leaves the list as it is;
    * a longer one keeps the matching items. */
  method GetFilteredList(term: string, items: seq<string>) returns (filtered: seq<string>)
    ensures ByteLen(term) <= 2 ==> filtered == items
    ensures ByteLen(term) > 2 ==> filtered == Matching(term, items)
  {
    filtered := [];
    if ByteLen(term) > 2 {
      var i := 0;
      while i < |items|
        invariant 0 <= i <= |items|
        invariant filtered == Matching(term, items[..i])
      {
        assert items[..i + 1][..i] == items[..i];
        if Contains(Lower(items[i]), term) {
          filtered := filtered + [items[i]];
        }
        i := i + 1;
      }
      assert items[..i] == items;
    } else {
      filtered := items;
    }
  }

  /** A lower-cased text holds no upper-case ASCII letter, so a term with one
    * matches no item: the term is compared as typed. */
  lemma UppercaseTermMatchesNothing(term: string, items: seq<string>, k: nat)
    requires k < |term| && 'A' <= term[k] <= 'Z'
    ensures Matching(term, items) == []
  {
    if Matching(term, items) != [] {
      var item := Matching(term, items)[0];
      MatchingIff(term, items, item);
      var low := Lower(item);
      ContainsIff(low, term);
      var i :| Occurs(low, term, i);
      OccursAt(low, term, i, k);
      assert false;
    }
  }
}
