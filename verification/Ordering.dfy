/** Lexicographic order on text and on composite keys, and sorting by key. */
module Ordering {
  import opened Base

  // ----- orders ---------------------------------------------------------------------------

  predicate TextLess(a: string, b: string) {
    b != "" && (a == "" || a[0] < b[0] || (a[0] == b[0] && TextLess(a[1..], b[1..])))
  }

  lemma {:induction false} TextTotal(a: string, b: string)
    ensures TextLess(a, b) || a == b || TextLess(b, a)
    ensures !(TextLess(a, b) && TextLess(b, a)) && !TextLess(a, a)
  {
    if a != "" {
      TextTotal(a[1..], a[1..]);
      if b != "" {
        TextTotal(a[1..], b[1..]);
        assert a == [a[0]] + a[1..] && b == [b[0]] + b[1..];
      }
    }
  }

  lemma {:induction false} TextTransitive(a: string, b: string, c: string)
    requires TextLess(a, b) && TextLess(b, c)
    ensures TextLess(a, c)
  {
    if a != "" && a[0] == b[0] && b[0] == c[0] {
      TextTransitive(a[1..], b[1..], c[1..]);
    }
  }

  /** A composite key, compared component by component. */
  type Key = seq<string>

  predicate KeyLess(a: Key, b: Key) {
    b != [] && (a == [] || TextLess(a[0], b[0]) || (a[0] == b[0] && KeyLess(a[1..], b[1..])))
  }

  lemma {:induction false} KeyTotal(a: Key, b: Key)
    ensures KeyLess(a, b) || a == b || KeyLess(b, a)
    ensures !(KeyLess(a, b) && KeyLess(b, a)) && !KeyLess(a, a)
  {
    if a != [] {
      TextTotal(a[0], a[0]);
      KeyTotal(a[1..], a[1..]);
      if b != [] {
        TextTotal(a[0], b[0]);
        KeyTotal(a[1..], b[1..]);
        assert a == [a[0]] + a[1..] && b == [b[0]] + b[1..];
      }
    }
  }

  lemma {:induction false} KeyTransitive(a: Key, b: Key, c: Key)
    requires KeyLess(a, b) && KeyLess(b, c)
    ensures KeyLess(a, c)
  {
    if a != [] {
      if TextLess(a[0], b[0]) && TextLess(b[0], c[0]) {
        TextTransitive(a[0], b[0], c[0]);
      } else if a[0] == b[0] && b[0] == c[0] {
        KeyTransitive(a[1..], b[1..], c[1..]);
      }
    }
  }

  // ----- sorted lists ---------------------------------------------------------------------

  ghost predicate SortedBy<R>(s: seq<R>, key: R -> Key) {
    forall i, j | 0 <= i < j < |s| :: !KeyLess(key(s[j]), key(s[i]))
  }

  ghost predicate StrictlySortedBy<R>(s: seq<R>, key: R -> Key) {
    forall i, j | 0 <= i < j < |s| :: KeyLess(key(s[i]), key(s[j]))
  }

  function InsertBy<R>(s: seq<R>, x: R, key: R -> Key): (r: seq<R>) {
    if s == [] then [x]
    else if KeyLess(key(x), key(s[0])) then [x] + s
    else [s[0]] + InsertBy(s[1..], x, key)
  }

  function SortBy<R>(s: seq<R>, key: R -> Key): seq<R> {
    if s == [] then [] else InsertBy(SortBy(s[..|s| - 1], key), s[|s| - 1], key)
  }

  lemma {:induction false} InsertPermutes<R>(s: seq<R>, x: R, key: R -> Key)
    ensures multiset(InsertBy(s, x, key)) == multiset(s) + multiset{x}
  {
    if s != [] && !KeyLess(key(x), key(s[0])) {
      InsertPermutes(s[1..], x, key);
      assert s == [s[0]] + s[1..];
    }
  }

  lemma {:induction false} SortPermutes<R>(s: seq<R>, key: R -> Key)
    ensures multiset(SortBy(s, key)) == multiset(s)
  {
    if s != [] {
      SortPermutes(s[..|s| - 1], key);
      InsertPermutes(SortBy(s[..|s| - 1], key), s[|s| - 1], key);
      assert s == s[..|s| - 1] + [s[|s| - 1]];
    }
  }

  lemma {:induction false} InsertSorts<R>(s: seq<R>, x: R, key: R -> Key)
    requires SortedBy(s, key)
    ensures SortedBy(InsertBy(s, x, key), key)
  {
    if s == [] {
    } else if KeyLess(key(x), key(s[0])) {
      forall j | 0 <= j < |s|
        ensures !KeyLess(key(s[j]), key(x))
      {
        if KeyLess(key(s[j]), key(x)) {
          KeyTransitive(key(s[j]), key(x), key(s[0]));
          KeyTotal(key(s[j]), key(s[j]));
        }
      }
    } else {
      var rest := InsertBy(s[1..], x, key);
      InsertSorts(s[1..], x, key);
      InsertPermutes(s[1..], x, key);
      forall j | 0 <= j < |rest|
        ensures !KeyLess(key(rest[j]), key(s[0]))
      {
        assert rest[j] in multiset(rest);
        if rest[j] != x {
          assert rest[j] in multiset(s[1..]);
          var k :| 0 <= k < |s[1..]| && s[1..][k] == rest[j];
          assert s[k + 1] == rest[j];
        }
      }
    }
  }

  lemma {:induction false} SortSorts<R>(s: seq<R>, key: R -> Key)
    ensures SortedBy(SortBy(s, key), key)
  {
    if s != [] {
      SortSorts(s[..|s| - 1], key);
      InsertSorts(SortBy(s[..|s| - 1], key), s[|s| - 1], key);
    }
  }

  lemma {:induction false} SortKeeps<R>(s: seq<R>, key: R -> Key)
    ensures |SortBy(s, key)| == |s| && forall x :: x in SortBy(s, key) <==> x in s
  {
    SortPermutes(s, key);
    assert |multiset(SortBy(s, key))| == |multiset(s)|;
    forall x
      ensures x in SortBy(s, key) <==> x in s
    {
      assert x in SortBy(s, key) <==> x in multiset(SortBy(s, key));
      assert x in s <==> x in multiset(s);
    }
  }

  // ----- sorted and unique ----------------------------------------------------------------

  function TextKey(text: string): Key { [text] }

  /** Sorts a list of ids and drops repetitions. */
  method SortUnique(values: seq<Id>) returns (r: seq<Id>)
    ensures StrictlySortedBy(r, TextKey) && Distinct(r)
    ensures |r| <= |values| && forall x :: x in r <==> x in values
  {
    var sorted := SortBy(values, TextKey);
    SortSorts(values, TextKey);
    SortKeeps(values, TextKey);
    r := [];
    for k := 0 to |sorted|
      invariant StrictlySortedBy(r, TextKey) && |r| <= k
      invariant forall x :: x in r <==> x in sorted[..k]
      invariant r != [] ==> k > 0 && r[|r| - 1] == sorted[k - 1]
      invariant r == [] ==> k == 0
    {
      assert sorted[..k + 1] == sorted[..k] + [sorted[k]];
      if r == [] || r[|r| - 1] != sorted[k] {
        forall j | 0 <= j < |r|
          ensures KeyLess(TextKey(r[j]), TextKey(sorted[k]))
        {
          KeyTotal(TextKey(sorted[k - 1]), TextKey(sorted[k]));
          assert TextKey(sorted[k - 1])[0] != TextKey(sorted[k])[0];
          if j < |r| - 1 {
            KeyTransitive(TextKey(r[j]), TextKey(r[|r| - 1]), TextKey(sorted[k]));
          }
        }
        r := r + [sorted[k]];
      }
    }
    assert sorted[..|sorted|] == sorted;
    forall i, j | 0 <= i < j < |r|
      ensures r[i] != r[j]
    {
      KeyTotal(TextKey(r[i]), TextKey(r[i]));
    }
  }
}
