/** Byte order on strings, and the sorting that the scheduler, the group
    resolver and the suite runner rely on for deterministic results. */
module Ordering {

  function Elems<T>(s: seq<T>): set<T> {
    set x | x in s
  }

  ghost predicate NoDup<T>(s: seq<T>) {
    forall i, j :: 0 <= i < j < |s| ==> s[i] != s[j]
  }

  lemma NoDupSize<T>(s: seq<T>)
    requires NoDup(s)
    ensures |Elems(s)| == |s|
  {
    if s != [] {
      var t := s[..|s| - 1];
      NoDupSize(t);
      assert s == t + [s[|s| - 1]];
      assert Elems(s) == Elems(t) + {s[|s| - 1]};
    }
  }

  lemma NoDupTail<T>(s: seq<T>)
    requires NoDup(s) && s != []
    ensures NoDup(s[1..]) && s[0] !in s[1..]
  {
    forall j | 0 <= j < |s| - 1 ensures s[1..][j] == s[j + 1] && s[1..][j] != s[0] {
    }
  }

  lemma NoDupConcat<T>(a: seq<T>, b: seq<T>)
    requires NoDup(a) && NoDup(b) && Elems(a) !! Elems(b)
    ensures NoDup(a + b)
    ensures Elems(a + b) == Elems(a) + Elems(b)
  {
    forall i, j | 0 <= i < |a| && 0 <= j < |b| ensures a[i] != b[j] {
      assert a[i] in Elems(a) && b[j] in Elems(b);
    }
  }

  lemma NoDupParts<T>(a: seq<T>, b: seq<T>)
    requires NoDup(a + b)
    ensures NoDup(a) && NoDup(b) && Elems(a) !! Elems(b)
  {
    assert forall i :: 0 <= i < |a| ==> (a + b)[i] == a[i];
    assert forall i :: 0 <= i < |b| ==> (a + b)[|a| + i] == b[i];
    forall x | x in Elems(a) ensures x !in Elems(b) {
      var i :| 0 <= i < |a| && a[i] == x;
      forall j | 0 <= j < |b| ensures b[j] != x {
        assert (a + b)[i] == x && (a + b)[|a| + j] == b[j];
      }
    }
  }

  lemma ElemsSize<T>(s: seq<T>)
    ensures |Elems(s)| <= |s|
    ensures |Elems(s)| == |s| ==> NoDup(s)
  {
    if s != [] {
      var t, x := s[..|s| - 1], s[|s| - 1];
      ElemsSize(t);
      assert s == t + [x];
      assert Elems(s) == Elems(t) + {x};
    }
  }

  // Unicode scalar order on strings is the byte order of their UTF-8 form,
  // which is how the source compares ids and names.
  predicate Le(a: string, b: string) {
    a == [] || (b != [] && (a[0] < b[0] || (a[0] == b[0] && Le(a[1..], b[1..]))))
  }

  lemma LeTotal(a: string, b: string)
    ensures Le(a, b) || Le(b, a)
  {
  }

  lemma {:induction false} LeAntisymmetric(a: string, b: string)
    requires Le(a, b) && Le(b, a)
    ensures a == b
  {
    if a != [] {
      LeAntisymmetric(a[1..], b[1..]);
      assert a == [a[0]] + a[1..] && b == [b[0]] + b[1..];
    }
  }

  lemma {:induction false} LeTransitive(a: string, b: string, c: string)
    requires Le(a, b) && Le(b, c)
    ensures Le(a, c)
  {
    if a != [] && a[0] == b[0] && b[0] == c[0] {
      LeTransitive(a[1..], b[1..], c[1..]);
    }
  }

  /** `a` is a prefix of `b`, or the first character in which they differ is smaller in `a`. */
  ghost predicate Precedes(a: string, b: string) {
    a <= b || exists k :: 0 <= k < |a| && k < |b| && a[..k] == b[..k] && a[k] < b[k]
  }

  ghost predicate Increasing(s: seq<string>) {
    forall i, j :: 0 <= i < j < |s| ==> Precedes(s[i], s[j])
  }

  lemma {:induction false} LePrefix(p: string, a: string)
    ensures Le(p, p + a)
  {
    if p != "" {
      LePrefix(p[1..], a);
      assert (p + a)[1..] == p[1..] + a;
    }
  }

  /** Behind a common prefix the first different character decides. */
  lemma {:induction false} LeDecides(p: string, x: char, a: string, y: char, b: string)
    requires x < y
    ensures Le(p + [x] + a, p + [y] + b) && !Le(p + [y] + b, p + [x] + a)
  {
    if p != "" {
      LeDecides(p[1..], x, a, y, b);
      assert (p + [x] + a)[1..] == p[1..] + [x] + a && (p + [y] + b)[1..] == p[1..] + [y] + b;
    }
  }

  lemma {:induction false} LePrecedes(a: string, b: string)
    requires Le(a, b)
    ensures Precedes(a, b)
  {
    if a != "" && a[0] == b[0] {
      LePrecedes(a[1..], b[1..]);
      assert a == [a[0]] + a[1..] && b == [b[0]] + b[1..];
      if !(a[1..] <= b[1..]) {
        var k :| 0 <= k < |a| - 1 && k < |b| - 1 && a[1..][..k] == b[1..][..k] && a[1..][k] < b[1..][k];
        assert a[..k + 1] == [a[0]] + a[1..][..k] && b[..k + 1] == [b[0]] + b[1..][..k];
        assert a[k + 1] < b[k + 1];
      }
    } else if a != "" {
      assert a[..0] == b[..0];
    }
  }

  lemma SplitAt(s: string, k: nat)
    requires k < |s|
    ensures s == s[..k] + [s[k]] + s[k + 1..]
  {
  }

  lemma PrecedesLe(a: string, b: string)
    requires Precedes(a, b)
    ensures Le(a, b)
  {
    if a <= b {
      LePrefix(a, b[|a|..]);
      assert a + b[|a|..] == b;
    } else {
      var k :| 0 <= k < |a| && k < |b| && a[..k] == b[..k] && a[k] < b[k];
      SplitAt(a, k);
      SplitAt(b, k);
      LeDecides(a[..k], a[k], a[k + 1..], b[k], b[k + 1..]);
    }
  }

  /** The order is the lexicographic one. */
  lemma LeExact(a: string, b: string)
    ensures Le(a, b) <==> Precedes(a, b)
  {
    if Le(a, b) { LePrecedes(a, b); }
    if Precedes(a, b) { PrecedesLe(a, b); }
  }

  ghost predicate SortedBy<T>(key: T -> string, s: seq<T>) {
    forall i, j :: 0 <= i < j < |s| ==> Le(key(s[i]), key(s[j]))
  }

  function Insert<T>(key: T -> string, x: T, s: seq<T>): (r: seq<T>)
    ensures multiset(r) == multiset{x} + multiset(s)
  {
    if s == [] then [x]
    else if Le(key(x), key(s[0])) then [x] + s
    else
      assert s == [s[0]] + s[1..];
      [s[0]] + Insert(key, x, s[1..])
  }

  /** A stable sort on a string key. */
  function SortBy<T>(key: T -> string, s: seq<T>): (r: seq<T>)
    ensures multiset(r) == multiset(s)
  {
    if s == [] then []
    else
      assert s == [s[0]] + s[1..];
      Insert(key, s[0], SortBy(key, s[1..]))
  }

  lemma {:induction false} InsertSorted<T>(key: T -> string, x: T, s: seq<T>)
    requires SortedBy(key, s)
    ensures SortedBy(key, Insert(key, x, s))
  {
    if s != [] {
      if Le(key(x), key(s[0])) {
        forall j | 0 <= j < |s| ensures Le(key(x), key(s[j])) {
          if j > 0 { LeTransitive(key(x), key(s[0]), key(s[j])); }
        }
      } else {
        LeTotal(key(x), key(s[0]));
        InsertSorted(key, x, s[1..]);
        var r := Insert(key, x, s[1..]);
        forall y | y in r ensures Le(key(s[0]), key(y)) {
          assert y in multiset(r);
          assert y == x || y in s[1..];
        }
      }
    }
  }

  lemma {:induction false} SortBySorted<T>(key: T -> string, s: seq<T>)
    ensures SortedBy(key, SortBy(key, s))
  {
    if s != [] {
      SortBySorted(key, s[1..]);
      InsertSorted(key, s[0], SortBy(key, s[1..]));
    }
  }

  ghost function Keys<T>(key: T -> string, s: seq<T>): seq<string> {
    seq(|s|, i requires 0 <= i < |s| => key(s[i]))
  }

  /** Sorted means lexicographically increasing keys. */
  lemma SortedPrecedes<T>(key: T -> string, s: seq<T>)
    requires SortedBy(key, s)
    ensures Increasing(Keys(key, s))
  {
    forall i, j | 0 <= i < j < |s| ensures Precedes(key(s[i]), key(s[j])) {
      LeExact(key(s[i]), key(s[j]));
    }
  }

  lemma SortByIncreasing<T>(key: T -> string, s: seq<T>)
    ensures Increasing(Keys(key, SortBy(key, s)))
  {
    SortBySorted(key, s);
    SortedPrecedes(key, SortBy(key, s));
  }

  lemma SortedHead<T>(key: T -> string, a: seq<T>, x: T)
    requires SortedBy(key, a) && x in a
    ensures Le(key(a[0]), key(x))
  {
    LeTotal(key(x), key(x));
  }

  /** Two sorted arrangements of the same elements, with distinct keys, are equal. */
  lemma {:induction false} SortedUnique<T>(key: T -> string, a: seq<T>, b: seq<T>)
    requires SortedBy(key, a) && SortedBy(key, b)
    requires multiset(a) == multiset(b)
    requires forall x, y :: x in a && y in a && key(x) == key(y) ==> x == y
    ensures a == b
  {
    assert |b| == |multiset(b)| == |multiset(a)| == |a|;
    if a != [] {
      SameHead(key, a, b);
      SameTail(a, b);
      SortedUnique(key, a[1..], b[1..]);
      assert a == [a[0]] + a[1..] && b == [b[0]] + b[1..];
    }
  }

  lemma SameTail<T>(a: seq<T>, b: seq<T>)
    requires a != [] && b != [] && a[0] == b[0] && multiset(a) == multiset(b)
    ensures multiset(a[1..]) == multiset(b[1..])
  {
    assert a == [a[0]] + a[1..] && b == [b[0]] + b[1..];
    assert multiset(a[1..]) == multiset(a) - multiset{a[0]};
    assert multiset(b[1..]) == multiset(b) - multiset{b[0]};
  }

  lemma SameHead<T>(key: T -> string, a: seq<T>, b: seq<T>)
    requires SortedBy(key, a) && SortedBy(key, b)
    requires a != [] && b != [] && multiset(a) == multiset(b)
    requires forall x, y :: x in a && y in a && key(x) == key(y) ==> x == y
    ensures a[0] == b[0]
  {
    assert a[0] in multiset(a) && b[0] in multiset(b);
    SortedHead(key, a, b[0]);
    SortedHead(key, b, a[0]);
    LeAntisymmetric(key(a[0]), key(b[0]));
  }

  /** Sorting forgets the order in which distinct-keyed elements arrived. */
  lemma SortByForgetsOrder<T>(key: T -> string, a: seq<T>, b: seq<T>)
    requires multiset(a) == multiset(b)
    requires forall x, y :: x in a && y in a && key(x) == key(y) ==> x == y
    ensures SortBy(key, a) == SortBy(key, b)
  {
    SortBySorted(key, a);
    SortBySorted(key, b);
    forall x | x in SortBy(key, a) ensures x in a { assert x in multiset(a); }
    SortedUnique(key, SortBy(key, a), SortBy(key, b));
  }

  function Itself(s: string): string { s }

  predicate IsLeast(m: string, s: set<string>) {
    m in s && forall y :: y in s ==> Le(m, y)
  }

  lemma {:induction false} LeastExists(s: set<string>)
    requires s != {}
    ensures exists m :: IsLeast(m, s)
  {
    var x :| x in s;
    LeTotal(x, x);
    if s == {x} {
      assert IsLeast(x, s);
    } else {
      LeastExists(s - {x});
      var k :| IsLeast(k, s - {x});
      LeTotal(x, k);
      forall y | y in s && Le(x, k) ensures Le(x, y) {
        if y != x { LeTransitive(x, k, y); }
      }
      assert IsLeast(x, s) || IsLeast(k, s);
    }
  }

  lemma LeastUnique(s: set<string>)
    ensures forall a, b :: IsLeast(a, s) && IsLeast(b, s) ==> a == b
  {
    forall a, b | IsLeast(a, s) && IsLeast(b, s) ensures a == b {
      LeAntisymmetric(a, b);
    }
  }

  lemma ConsElems(m: string, rest: seq<string>, s: set<string>)
    requires m in s && Elems(rest) == s - {m} && |rest| == |s - {m}|
    ensures Elems([m] + rest) == s && |[m] + rest| == |s|
  {
    assert Elems([m] + rest) == {m} + Elems(rest);
  }

  /** The members of a set in increasing order: the iteration order of a BTreeMap's keys. */
  function SortedKeys(s: set<string>): (r: seq<string>)
    ensures Elems(r) == s
    ensures |r| == |s|
  {
    if s == {} then []
    else
      LeastExists(s);
      LeastUnique(s);
      var m :| IsLeast(m, s);
      var rest := SortedKeys(s - {m});
      ConsElems(m, rest, s);
      [m] + rest
  }

  lemma SortedKeysNoDup(s: set<string>)
    ensures NoDup(SortedKeys(s))
  {
    ElemsSize(SortedKeys(s));
  }

  /** Keys come in lexicographic order. */
  lemma SortedKeysIncreasing(s: set<string>)
    ensures Increasing(SortedKeys(s))
  {
    SortedKeysSorted(s);
    SortedPrecedes(Itself, SortedKeys(s));
    assert Keys(Itself, SortedKeys(s)) == SortedKeys(s);
  }

  lemma {:induction false} SortedKeysSorted(s: set<string>)
    ensures SortedBy(Itself, SortedKeys(s))
  {
    if s != {} {
      var r := SortedKeys(s);
      LeastExists(s);
      LeastUnique(s);
      SortedKeysSorted(s - {r[0]});
      assert r[1..] == SortedKeys(s - {r[0]});
      assert IsLeast(r[0], s);
      forall j | 0 < j < |r| ensures Le(r[0], r[j]) {
        assert r[j] in Elems(r);
      }
    }
  }

  /** Sorting an arrangement of a set without repeats gives its sorted keys. */
  lemma SortIsSortedKeys(a: seq<string>)
    requires NoDup(a)
    ensures SortBy(Itself, a) == SortedKeys(Elems(a))
  {
    var k := SortedKeys(Elems(a));
    SortedKeysNoDup(Elems(a));
    SortedKeysSorted(Elems(a));
    SortBySorted(Itself, a);
    SameMultiset(a, k);
    SortedUnique(Itself, k, SortBy(Itself, a));
  }

  lemma NoDupCount<T>(a: seq<T>, x: T)
    requires NoDup(a)
    ensures multiset(a)[x] == if x in a then 1 else 0
  {
    if a != [] {
      var t := a[..|a| - 1];
      assert a == t + [a[|a| - 1]];
      NoDupCount(t, x);
    }
  }

  lemma SameMultiset<T>(a: seq<T>, b: seq<T>)
    requires NoDup(a) && NoDup(b) && Elems(a) == Elems(b)
    ensures multiset(a) == multiset(b)
  {
    forall x: T ensures multiset(a)[x] == multiset(b)[x] {
      NoDupCount(a, x);
      NoDupCount(b, x);
      assert x in a <==> x in Elems(a);
      assert x in b <==> x in Elems(b);
    }
  }
}
