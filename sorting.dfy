/** The ORDER BY clauses of the handlers' queries: a row is ordered by one
    key (an integer, a real or a text), ascending or descending.  Text is
    compared code point by code point, and rows with equal keys keep the
    order they had (a stable insertion sort). */
module Sorting {
  import opened Common

  datatype SortKey = IntKey(i: int) | RealKey(r: real) | TextKey(s: string)

  /** Lexicographic order on strings, one code point at a time. */
  predicate TextLe(a: string, b: string)
    decreases |a|
  {
    a == [] || (b != [] && (a[0] < b[0] || (a[0] == b[0] && TextLe(a[1..], b[1..]))))
  }

  function Rank(k: SortKey): int {
    match k
    case IntKey(_) => 0
    case RealKey(_) => 1
    case TextKey(_) => 2
  }

  /** Keys of one kind compare by value; keys of two kinds never meet in one
      query, and are ordered by kind only so that the order is total. */
  predicate KeyLe(a: SortKey, b: SortKey) {
    match (a, b)
    case (IntKey(x), IntKey(y)) => x <= y
    case (RealKey(x), RealKey(y)) => x <= y
    case (TextKey(x), TextKey(y)) => TextLe(x, y)
    case _ => Rank(a) < Rank(b)
  }

  /** `a` may come before `b` in the requested direction. */
  predicate Precedes(a: SortKey, b: SortKey, descending: bool) {
    if descending then KeyLe(b, a) else KeyLe(a, b)
  }

  lemma {:induction false} TextLeTotal(a: string, b: string)
    ensures TextLe(a, b) || TextLe(b, a)
    decreases |a|
  {
    if a != [] && b != [] && a[0] == b[0] {
      TextLeTotal(a[1..], b[1..]);
    }
  }

  lemma {:induction false} TextLeTransitive(a: string, b: string, c: string)
    requires TextLe(a, b) && TextLe(b, c)
    ensures TextLe(a, c)
    decreases |a|
  {
    if a != [] && a[0] == b[0] && b[0] == c[0] {
      TextLeTransitive(a[1..], b[1..], c[1..]);
    }
  }

  lemma {:induction false} TextLeAntisymmetric(a: string, b: string)
    requires TextLe(a, b) && TextLe(b, a)
    ensures a == b
    decreases |a|
  {
    if a != [] {
      TextLeAntisymmetric(a[1..], b[1..]);
      assert a == [a[0]] + a[1..] && b == [b[0]] + b[1..];
    }
  }

  lemma KeyLeTotal(a: SortKey, b: SortKey)
    ensures KeyLe(a, b) || KeyLe(b, a)
  {
    if a.TextKey? && b.TextKey? {
      TextLeTotal(a.s, b.s);
    }
  }

  lemma KeyLeTransitive(a: SortKey, b: SortKey, c: SortKey)
    requires KeyLe(a, b) && KeyLe(b, c)
    ensures KeyLe(a, c)
  {
    if a.TextKey? && b.TextKey? && c.TextKey? {
      TextLeTransitive(a.s, b.s, c.s);
    }
  }

  lemma PrecedesTotal(a: SortKey, b: SortKey, descending: bool)
    ensures Precedes(a, b, descending) || Precedes(b, a, descending)
  {
    KeyLeTotal(a, b);
  }

  lemma PrecedesTransitive(a: SortKey, b: SortKey, c: SortKey, descending: bool)
    requires Precedes(a, b, descending) && Precedes(b, c, descending)
    ensures Precedes(a, c, descending)
  {
    if descending {
      KeyLeTransitive(c, b, a);
    } else {
      KeyLeTransitive(a, b, c);
    }
  }

  predicate SortedBy<T>(s: seq<T>, key: T -> SortKey, descending: bool) {
    forall i, j :: 0 <= i < j < |s| ==> Precedes(key(s[i]), key(s[j]), descending)
  }

  /** Places `x` before the first element it may precede. */
  function Insert<T>(x: T, s: seq<T>, key: T -> SortKey, descending: bool): (r: seq<T>)
    ensures multiset(r) == multiset(s) + multiset{x}
  {
    if s == [] then [x]
    else if Precedes(key(x), key(s[0]), descending) then [x] + s
    else
      assert s == [s[0]] + s[1..];
      [s[0]] + Insert(x, s[1..], key, descending)
  }

  /** Stable insertion sort: the result order of an ORDER BY on `key`. */
  function SortBy<T>(s: seq<T>, key: T -> SortKey, descending: bool): (r: seq<T>)
    ensures multiset(r) == multiset(s)
  {
    if s == [] then []
    else
      assert s == [s[0]] + s[1..];
      Insert(s[0], SortBy(s[1..], key, descending), key, descending)
  }

  /** Every element of an insertion into the tail is preceded by the head,
      when the head precedes both the tail and the inserted element. */
  lemma HeadPrecedesInsert<T>(x: T, s: seq<T>, key: T -> SortKey, descending: bool)
    requires s != [] && SortedBy(s, key, descending)
    requires Precedes(key(s[0]), key(x), descending)
    ensures forall y | y in Insert(x, s[1..], key, descending) :: Precedes(key(s[0]), key(y), descending)
  {
    var t := Insert(x, s[1..], key, descending);
    forall y | y in t ensures Precedes(key(s[0]), key(y), descending) {
      assert y in multiset(t);
      if y != x {
        assert y in multiset(s[1..]);
        var k :| 0 <= k < |s[1..]| && s[1..][k] == y;
        assert s[k + 1] == y;
      }
    }
  }

  /** An element that precedes every element of a sorted sequence can lead it. */
  lemma ConsSorted<T>(y: T, t: seq<T>, key: T -> SortKey, descending: bool)
    requires SortedBy(t, key, descending)
    requires forall z | z in t :: Precedes(key(y), key(z), descending)
    ensures SortedBy([y] + t, key, descending)
  {
    var r := [y] + t;
    forall i, j | 0 <= i < j < |r| ensures Precedes(key(r[i]), key(r[j]), descending) {
      assert r[j] == t[j - 1];
      if i == 0 {
        assert r[j] in t;
      } else {
        assert r[i] == t[i - 1];
      }
    }
  }

  lemma TailSorted<T>(s: seq<T>, key: T -> SortKey, descending: bool)
    requires s != [] && SortedBy(s, key, descending)
    ensures SortedBy(s[1..], key, descending)
  {
    var t := s[1..];
    forall i, j | 0 <= i < j < |t| ensures Precedes(key(t[i]), key(t[j]), descending) {
      assert t[i] == s[i + 1] && t[j] == s[j + 1];
    }
  }

  /** An element preceding the head of a sorted sequence precedes all of it. */
  lemma PrecedesAll<T>(x: T, s: seq<T>, key: T -> SortKey, descending: bool)
    requires s != [] && SortedBy(s, key, descending)
    requires Precedes(key(x), key(s[0]), descending)
    ensures forall z | z in s :: Precedes(key(x), key(z), descending)
  {
    forall z | z in s ensures Precedes(key(x), key(z), descending) {
      var k :| 0 <= k < |s| && s[k] == z;
      if k > 0 {
        PrecedesTransitive(key(x), key(s[0]), key(s[k]), descending);
      }
    }
  }

  lemma {:induction false} InsertSorted<T>(x: T, s: seq<T>, key: T -> SortKey, descending: bool)
    requires SortedBy(s, key, descending)
    ensures SortedBy(Insert(x, s, key, descending), key, descending)
  {
    if s == [] {
    } else if Precedes(key(x), key(s[0]), descending) {
      PrecedesAll(x, s, key, descending);
      ConsSorted(x, s, key, descending);
    } else {
      TailSorted(s, key, descending);
      InsertSorted(x, s[1..], key, descending);
      PrecedesTotal(key(x), key(s[0]), descending);
      HeadPrecedesInsert(x, s, key, descending);
      ConsSorted(s[0], Insert(x, s[1..], key, descending), key, descending);
    }
  }

  lemma {:induction false} SortBySorted<T>(s: seq<T>, key: T -> SortKey, descending: bool)
    ensures SortedBy(SortBy(s, key, descending), key, descending)
  {
    if s != [] {
      SortBySorted(s[1..], key, descending);
      InsertSorted(s[0], SortBy(s[1..], key, descending), key, descending);
    }
  }

  /** Rows already in the requested order come out of the sort unchanged. */
  lemma {:induction false} SortByOfSorted<T>(s: seq<T>, key: T -> SortKey, descending: bool)
    requires SortedBy(s, key, descending)
    ensures SortBy(s, key, descending) == s
  {
    if s != [] {
      var t := s[1..];
      TailSorted(s, key, descending);
      SortByOfSorted(t, key, descending);
      if t != [] {
        assert t[0] == s[1];
        assert Precedes(key(s[0]), key(t[0]), descending);
      }
      assert s == [s[0]] + t;
    }
  }

  lemma {:induction false} SumOfInsert<T>(x: T, s: seq<T>, key: T -> SortKey, descending: bool, f: T -> real)
    ensures SumOf(Insert(x, s, key, descending), f) == f(x) + SumOf(s, f)
  {
    if s != [] && !Precedes(key(x), key(s[0]), descending) {
      var t := Insert(x, s[1..], key, descending);
      SumOfInsert(x, s[1..], key, descending, f);
      assert ([s[0]] + t)[1..] == t;
    } else if s != [] {
      assert ([x] + s)[1..] == s;
    }
  }

  /** Sorting moves rows and never changes a total taken over them. */
  lemma {:induction false} SumOfSortBy<T>(s: seq<T>, key: T -> SortKey, descending: bool, f: T -> real)
    ensures SumOf(SortBy(s, key, descending), f) == SumOf(s, f)
  {
    if s != [] {
      SumOfSortBy(s[1..], key, descending, f);
      SumOfInsert(s[0], SortBy(s[1..], key, descending), key, descending, f);
    }
  }
}
