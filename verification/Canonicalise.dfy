/** Sorting submitted records, dropping duplicates, flagging the ones that disagree, and looking
    the survivors up. */
module Canonicalise {
  import opened Base
  import opened Ordering

  // ----- sorted lists ---------------------------------------------------------------------

  ghost predicate SortOf<R>(sorted: seq<R>, records: seq<R>, key: R -> Key) {
    SortedBy(sorted, key) && multiset(sorted) == multiset(records)
  }

  lemma {:induction false} SortByIsSort<R>(records: seq<R>, key: R -> Key)
    ensures SortOf(SortBy(records, key), records, key)
  {
    SortSorts(records, key);
    SortPermutes(records, key);
  }

  lemma {:induction false} SameMembers<R>(a: seq<R>, b: seq<R>, x: R)
    requires multiset(a) == multiset(b)
    ensures x in a <==> x in b
  {
    assert x in a <==> x in multiset(a);
    assert x in b <==> x in multiset(b);
  }

  /** Between two positions of a sorted list keys lie between theirs. */
  lemma {:induction false} KeyBetween<R>(s: seq<R>, key: R -> Key, i: nat, k: nat, j: nat)
    requires SortedBy(s, key) && i <= k <= j < |s|
    requires key(s[i]) == key(s[j])
    ensures key(s[k]) == key(s[i])
  {
    KeyTotal(key(s[i]), key(s[k]));
    KeyTotal(key(s[k]), key(s[j]));
  }

  // ----- deduplication --------------------------------------------------------------------

  /** The records kept, and the identities for which one was dropped that differs from the
      record kept for it. */
  datatype Unique<R, I> = Unique(kept: seq<R>, flagged: set<I>)

  /** Drops each record whose identity is that of the record kept last. */
  function Dedup<R(==), I(==)>(s: seq<R>, id: R -> I): Unique<R, I> {
    if s == [] then Unique([], {})
    else
      var n := |s| - 1;
      var u := Dedup(s[..n], id);
      var last := |u.kept| - 1;
      if u.kept == [] || id(u.kept[last]) != id(s[n]) then Unique(u.kept + [s[n]], u.flagged)
      else if u.kept[last] != s[n] then Unique(u.kept, u.flagged + {id(s[n])})
      else u
  }

  method SortAndDeduplicate<R(==), I(==)>(records: seq<R>, key: R -> Key, id: R -> I)
    returns (kept: seq<R>, flagged: set<I>)
    ensures Unique(kept, flagged) == Dedup(SortBy(records, key), id)
  {
    var sorted := SortBy(records, key);
    kept, flagged := [], {};
    for i := 0 to |sorted|
      invariant Unique(kept, flagged) == Dedup(sorted[..i], id)
    {
      assert sorted[..i + 1][..i] == sorted[..i];
      if kept != [] && id(kept[|kept| - 1]) == id(sorted[i]) {
        if kept[|kept| - 1] != sorted[i] {
          flagged := flagged + {id(sorted[i])};
        }
      } else {
        kept := kept + [sorted[i]];
      }
    }
    assert sorted[..|sorted|] == sorted;
  }

  /** All records from position `p` on have one identity. */
  ghost predicate Run<R, I>(s: seq<R>, id: R -> I, p: nat, q: nat) {
    p <= q < |s| && forall k | p <= k <= q :: id(s[k]) == id(s[p])
  }

  /** Where the record kept last comes from. */
  lemma {:induction false} KeptLast<R, I>(s: seq<R>, id: R -> I) returns (p: nat)
    requires s != []
    ensures Run(s, id, p, |s| - 1) && (p > 0 ==> id(s[p - 1]) != id(s[p]))
    ensures var kept := Dedup(s, id).kept; kept != [] && kept[|kept| - 1] == s[p]
  {
    var n := |s| - 1;
    p := n;
    if n > 0 {
      p := KeptLast(s[..n], id);
      if id(s[n - 1]) != id(s[n]) {
        p := n;
      }
    }
  }

  /** Two records in one run disagree. */
  ghost predicate RunClash<R, I>(s: seq<R>, id: R -> I, x: I) {
    exists p: nat, q: nat :: Run(s, id, p, q) && id(s[p]) == x && s[p] != s[q]
  }

  /** An identity is flagged exactly when two records of one run disagree. */
  lemma {:induction false} FlaggedExactly<R, I>(s: seq<R>, id: R -> I, x: I)
    ensures x in Dedup(s, id).flagged <==> RunClash(s, id, x)
  {
    if s != [] {
      var n := |s| - 1;
      FlaggedExactly(s[..n], id, x);
      if x in Dedup(s[..n], id).flagged {
        var p: nat, q: nat :| Run(s[..n], id, p, q) && id(s[p]) == x && s[p] != s[q];
        assert Run(s, id, p, q);
      } else if x in Dedup(s, id).flagged {
        var p := KeptLast(s[..n], id);
        assert Run(s, id, p, n);
      } else if RunClash(s, id, x) {
        var p: nat, q: nat :| Run(s, id, p, q) && id(s[p]) == x && s[p] != s[q];
        NoEarlierClash(s, id, p, q);
        NotFlaggedLast(s, id, p);
      }
    }
  }

  lemma {:induction false} NoEarlierClash<R, I>(s: seq<R>, id: R -> I, p: nat, q: nat)
    requires Run(s, id, p, q) && s[p] != s[q] && !RunClash(s[..|s| - 1], id, id(s[p]))
    ensures q == |s| - 1 && p < q
  {
    var init := s[..|s| - 1];
    assert q < |init| ==> Run(init, id, p, q);
  }

  lemma {:induction false} NotFlaggedLast<R, I>(s: seq<R>, id: R -> I, p: nat)
    requires p < |s| - 1 && Run(s, id, p, |s| - 1) && s[p] != s[|s| - 1]
    requires !RunClash(s[..|s| - 1], id, id(s[p]))
    ensures id(s[p]) in Dedup(s, id).flagged
  {
    var n := |s| - 1;
    var init := s[..n];
    var first := KeptLast(init, id);
    assert Run(init, id, first, p);
    assert id(init[first]) == id(s[p]);
    assert init[first] == init[p];
  }

  // ----- which disagreements are seen -----------------------------------------------------

  /** `c` sorts strictly between `a` and `b`. */
  predicate Between<R>(key: R -> Key, a: R, c: R, b: R) {
    (KeyLess(key(a), key(c)) && KeyLess(key(c), key(b))) || (KeyLess(key(b), key(c)) && KeyLess(key(c), key(a)))
  }

  /** Two different records of identity `x` with no record of another identity between them. */
  ghost predicate Meet<R(!new), I>(records: seq<R>, key: R -> Key, id: R -> I, x: I, a: R, b: R) {
    && id(a) == x && id(b) == x && a != b
    && forall c :: c in records && Between(key, a, c, b) ==> id(c) == x
  }

  ghost predicate Clash<R(!new), I>(records: seq<R>, key: R -> Key, id: R -> I, x: I) {
    exists a, b :: a in records && b in records && Meet(records, key, id, x, a, b)
  }

  /** Records that sort alike have the same identity. */
  ghost predicate KeyNames<R(!new), I>(records: seq<R>, key: R -> Key, id: R -> I) {
    forall a, b :: a in records && b in records && key(a) == key(b) ==> id(a) == id(b)
  }

  lemma {:induction false} RunOfMeet<R(!new), I>(s: seq<R>, key: R -> Key, id: R -> I, x: I, i: nat, j: nat)
    requires SortedBy(s, key) && KeyNames(s, key, id) && i <= j < |s| && Meet(s, key, id, x, s[i], s[j])
    ensures Run(s, id, i, j)
  {
    forall k | i <= k <= j
      ensures id(s[k]) == id(s[i])
    {
      assert s[i] in s && s[k] in s && s[j] in s;
      KeyTotal(key(s[i]), key(s[k]));
      KeyTotal(key(s[k]), key(s[j]));
      if key(s[i]) != key(s[k]) && key(s[k]) != key(s[j]) {
        assert Between(key, s[i], s[k], s[j]);
      }
    }
  }

  lemma {:induction false} InsideRun<R(!new), I>(s: seq<R>, key: R -> Key, id: R -> I, p: nat, q: nat, c: R)
    requires SortedBy(s, key) && Run(s, id, p, q) && c in s && Between(key, s[p], c, s[q])
    ensures id(c) == id(s[p])
  {
    var k :| 0 <= k < |s| && s[k] == c;
    KeyTotal(key(s[p]), key(s[q]));
    KeyTotal(key(s[k]), key(s[p]));
    KeyTotal(key(s[k]), key(s[q]));
    NotSqueezed(key(s[p]), key(c), key(s[q]));
  }

  lemma {:induction false} NotSqueezed(low: Key, middle: Key, high: Key)
    requires !KeyLess(high, low)
    ensures !(KeyLess(high, middle) && KeyLess(middle, low))
  {
    if KeyLess(high, middle) && KeyLess(middle, low) {
      KeyTransitive(high, middle, low);
    }
  }

  /** Exactly which identities are flagged, however the sort breaks ties: those for which two
      different records were submitted with none of another identity sorting between them. */
  lemma {:induction false} FlaggedIsClash<R(!new), I(!new)>(sorted: seq<R>, records: seq<R>, key: R -> Key,
                                                              id: R -> I, x: I)
    requires SortOf(sorted, records, key) && KeyNames(records, key, id)
    ensures x in Dedup(sorted, id).flagged <==> Clash(records, key, id, x)
  {
    forall r
      ensures r in sorted <==> r in records
    {
      SameMembers(sorted, records, r);
    }
    FlaggedExactly(sorted, id, x);
    if RunClash(sorted, id, x) {
      var p: nat, q: nat :| Run(sorted, id, p, q) && id(sorted[p]) == x && sorted[p] != sorted[q];
      forall c | c in records && Between(key, sorted[p], c, sorted[q])
        ensures id(c) == x
      {
        InsideRun(sorted, key, id, p, q, c);
      }
      assert sorted[p] in records && sorted[q] in records;
      assert Meet(records, key, id, x, sorted[p], sorted[q]);
    }
    if Clash(records, key, id, x) {
      var a, b :| a in records && b in records && Meet(records, key, id, x, a, b);
      var i: nat :| i < |sorted| && sorted[i] == a;
      var j: nat :| j < |sorted| && sorted[j] == b;
      var lo, hi := if i <= j then i else j, if i <= j then j else i;
      assert Meet(sorted, key, id, x, sorted[lo], sorted[hi]);
      RunOfMeet(sorted, key, id, x, lo, hi);
    }
  }

  /** Two submitted records of identity `x` differ. */
  ghost predicate Differ<R(!new), I>(records: seq<R>, id: R -> I, x: I) {
    exists a, b :: a in records && b in records && id(a) == x && id(b) == x && a != b
  }

  lemma {:induction false} NoneBetween<R>(key: R -> Key, a: R, b: R)
    requires key(a) == key(b)
    ensures forall c :: !Between(key, a, c, b)
  {
    forall c
      ensures !Between(key, a, c, b)
    {
      KeyTotal(key(a), key(c));
    }
  }

  /** Where records of one identity always sort alike, every disagreement is flagged, and only
      disagreements are. */
  lemma {:induction false} ConflictExactly<R(!new), I(!new)>(sorted: seq<R>, records: seq<R>, key: R -> Key,
                                                               id: R -> I, x: I)
    requires SortOf(sorted, records, key)
    requires forall a, b :: a in records && b in records ==> (key(a) == key(b) <==> id(a) == id(b))
    ensures x in Dedup(sorted, id).flagged <==> Differ(records, id, x)
  {
    FlaggedIsClash(sorted, records, key, id, x);
    if Differ(records, id, x) {
      var a, b :| a in records && b in records && id(a) == x && id(b) == x && a != b;
      NoneBetween(key, a, b);
      assert Meet(records, key, id, x, a, b);
    }
  }

  // ----- what is kept ---------------------------------------------------------------------

  lemma {:induction false} KeptSubmitted<R, I>(s: seq<R>, id: R -> I, r: R)
    requires r in Dedup(s, id).kept
    ensures r in s
  {
    if r != s[|s| - 1] {
      KeptSubmitted(s[..|s| - 1], id, r);
    }
  }

  /** No identity is lost. */
  lemma {:induction false} KeptAll<R, I>(s: seq<R>, id: R -> I, r: R)
    requires r in s
    ensures exists k :: 0 <= k < |Dedup(s, id).kept| && id(Dedup(s, id).kept[k]) == id(r)
  {
    var n := |s| - 1;
    var before, after := Dedup(s[..n], id).kept, Dedup(s, id).kept;
    if r == s[n] {
      assert id(after[|after| - 1]) == id(r);
    } else {
      KeptAll(s[..n], id, r);
      var k :| 0 <= k < |before| && id(before[k]) == id(r);
      assert after[k] == before[k];
    }
  }

  /** Where identities are sort keys, one record is kept for each, in strict order. */
  lemma {:induction false} KeptStrict<R(!new), I(!new)>(s: seq<R>, key: R -> Key, id: R -> I)
    requires SortedBy(s, key)
    requires forall a, b :: a in s && b in s ==> (key(a) == key(b) <==> id(a) == id(b))
    ensures StrictlySortedBy(Dedup(s, id).kept, key)
  {
    if s != [] {
      var n := |s| - 1;
      var before := Dedup(s[..n], id).kept;
      KeptStrict(s[..n], key, id);
      forall r | r in before
        ensures r in s[..n]
      {
        KeptSubmitted(s[..n], id, r);
      }
      if before != [] && id(before[|before| - 1]) != id(s[n]) {
        forall i | 0 <= i < |before|
          ensures KeyLess(key(before[i]), key(s[n]))
        {
          LastIsAbove(s, key, id, before, i);
        }
      }
    }
  }

  lemma {:induction false} LastIsAbove<R(!new), I(!new)>(s: seq<R>, key: R -> Key, id: R -> I, before: seq<R>,
                                                           i: nat)
    requires s != [] && SortedBy(s, key) && StrictlySortedBy(before, key) && i < |before|
    requires forall a, b :: a in s && b in s ==> (key(a) == key(b) <==> id(a) == id(b))
    requires (forall r :: r in before ==> r in s[..|s| - 1]) && id(before[|before| - 1]) != id(s[|s| - 1])
    ensures KeyLess(key(before[i]), key(s[|s| - 1]))
  {
    var n, last := |s| - 1, before[|before| - 1];
    assert last in before;
    assert last in s[..n] && s[n] in s;
    var k :| 0 <= k < n && s[k] == last;
    KeyTotal(key(last), key(s[n]));
    if i < |before| - 1 {
      KeyTransitive(key(before[i]), key(last), key(s[n]));
    }
  }

  // ----- order of submission --------------------------------------------------------------

  lemma {:induction false} DropLast<R>(a: seq<R>)
    requires a != []
    ensures multiset(a[..|a| - 1]) == multiset(a) - multiset{a[|a| - 1]}
  {
    assert a == a[..|a| - 1] + [a[|a| - 1]];
  }

  lemma {:induction false} LastsAgree<R(!new)>(a: seq<R>, b: seq<R>, key: R -> Key)
    requires SortedBy(a, key) && SortedBy(b, key) && multiset(a) == multiset(b) && a != [] && b != []
    requires KeyDecides(a, key)
    ensures a[|a| - 1] == b[|b| - 1]
  {
    var x, y := a[|a| - 1], b[|b| - 1];
    SameMembers(a, b, x);
    SameMembers(a, b, y);
    var i: nat :| i < |b| && b[i] == x;
    var j: nat :| j < |a| && a[j] == y;
    KeyTotal(key(x), key(y));
  }

  lemma {:induction false} PrefixSorted<R(!new)>(a: seq<R>, key: R -> Key)
    requires SortedBy(a, key) && a != []
    ensures SortedBy(a[..|a| - 1], key) && (KeyDecides(a, key) ==> KeyDecides(a[..|a| - 1], key))
  {}

  ghost predicate KeyDecides<R(!new)>(a: seq<R>, key: R -> Key) {
    forall x, y :: x in a && y in a && key(x) == key(y) ==> x == y
  }

  /** When records that sort alike are equal, there is only one way to sort them. */
  lemma {:induction false} OneSort<R(!new)>(a: seq<R>, b: seq<R>, key: R -> Key)
    requires SortedBy(a, key) && SortedBy(b, key) && multiset(a) == multiset(b)
    requires KeyDecides(a, key)
    ensures a == b
  {
    SameLength(a, b);
    if a != [] {
      var n := |a| - 1;
      LastsAgree(a, b, key);
      DropLast(a);
      DropLast(b);
      PrefixSorted(a, key);
      PrefixSorted(b, key);
      OneSort(a[..n], b[..n], key);
      Rebuild(a, b);
    }
  }

  lemma {:induction false} SameLength<R>(a: seq<R>, b: seq<R>)
    requires multiset(a) == multiset(b)
    ensures |a| == |b|
  {
    assert |multiset(a)| == |a| && |multiset(b)| == |b|;
  }

  lemma {:induction false} Rebuild<R>(a: seq<R>, b: seq<R>)
    requires |a| == |b| > 0 && a[..|a| - 1] == b[..|b| - 1] && a[|a| - 1] == b[|b| - 1]
    ensures a == b
  {
    assert a == a[..|a| - 1] + [a[|a| - 1]];
    assert b == b[..|b| - 1] + [b[|b| - 1]];
  }

  /** The order of submission does not matter when records that sort alike agree. */
  lemma {:induction false} OrderIrrelevant<R(!new), I>(a: seq<R>, b: seq<R>, key: R -> Key, id: R -> I)
    requires multiset(a) == multiset(b)
    requires KeyDecides(a, key)
    ensures Dedup(SortBy(a, key), id) == Dedup(SortBy(b, key), id)
  {
    SortByIsSort(a, key);
    SortByIsSort(b, key);
    SortKeeps(a, key);
    OneSort(SortBy(a, key), SortBy(b, key), key);
  }

  // ----- lookup ---------------------------------------------------------------------------

  /** Finds the record with a key in a strictly sorted list, by bisection; what a scan of the
      whole list would find. */
  method Find<R>(records: seq<R>, key: R -> Key, wanted: Key) returns (index: Option<nat>)
    requires StrictlySortedBy(records, key)
    ensures index.Some? ==> index.value < |records| && key(records[index.value]) == wanted
    ensures index.None? <==> forall k | 0 <= k < |records| :: key(records[k]) != wanted
    ensures index.Some? ==> forall k | 0 <= k < |records| && key(records[k]) == wanted :: k == index.value
  {
    var low, high := 0, |records|;
    while low < high
      invariant 0 <= low <= high <= |records|
      invariant forall k | 0 <= k < low :: KeyLess(key(records[k]), wanted)
      invariant forall k | high <= k < |records| :: !KeyLess(key(records[k]), wanted)
    {
      var middle := low + (high - low) / 2;
      if KeyLess(key(records[middle]), wanted) {
        forall k | low <= k < middle
          ensures KeyLess(key(records[k]), wanted)
        {
          KeyTransitive(key(records[k]), key(records[middle]), wanted);
        }
        low := middle + 1;
      } else {
        forall k | middle < k < high
          ensures !KeyLess(key(records[k]), wanted)
        {
          if KeyLess(key(records[k]), wanted) {
            KeyTransitive(key(records[middle]), key(records[k]), wanted);
          }
        }
        high := middle;
      }
    }
    KeyTotal(wanted, wanted);
    if low == |records| || key(records[low]) != wanted {
      forall k | low <= k < |records|
        ensures key(records[k]) != wanted
      {
        assert low < k ==> KeyLess(key(records[low]), key(records[k]));
      }
      return None;
    }
    forall k | 0 <= k < |records| && key(records[k]) == wanted
      ensures k == low
    {}
    return Some(low);
  }
}
