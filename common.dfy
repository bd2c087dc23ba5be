/** Vocabulary shared by every handler: optional request fields, the
    JavaScript truthiness test the handlers apply to them, Math.round,
    instants of time and sums over sequences. */
module Common {

  /** A request field or a nullable column: `None` is `undefined`/`null`. */
  datatype Option<+T> = None | Some(value: T) {
    function GetOr(default: T): T {
      if Some? then value else default
    }
  }

  /** The test `if (field)` / `!field` on a string field: present and not empty. */
  predicate Truthy(s: Option<string>) {
    s.Some? && s.value != ""
  }

  /** Instants are whole seconds since the epoch, in the database's time zone;
      the clock itself (CURRENT_TIMESTAMP, CURRENT_DATE) is always a parameter. */
  type Timestamp = int

  const SecondsPerDay: int := 86400

  /** The calendar day of an instant, as `fecha_hora::date` gives it. */
  function DayOf(t: Timestamp): (d: int)
    ensures d * SecondsPerDay <= t < (d + 1) * SecondsPerDay
  {
    t / SecondsPerDay
  }

  /** The first instant of a calendar day: what a `YYYY-MM-DD` string
      becomes when it is compared with a timestamp. */
  function StartOfDay(d: int): Timestamp {
    d * SecondsPerDay
  }

  /** An instant is at or after the start of a day exactly when its calendar
      day is that day or a later one, and before the start of the next day
      exactly when its calendar day is that day or an earlier one. */
  lemma StartOfDayOrder(t: Timestamp, d: int)
    ensures t >= StartOfDay(d) <==> DayOf(t) >= d
    ensures t < StartOfDay(d + 1) <==> DayOf(t) <= d
  {
    var k := DayOf(t);
    if k < d {
      assert (k + 1) * SecondsPerDay <= d * SecondsPerDay;
    }
    if k > d {
      assert (d + 1) * SecondsPerDay <= k * SecondsPerDay;
    }
  }

  /** JavaScript's `Math.round`: the nearest integer, a half rounded upwards. */
  function MathRound(x: real): (r: int)
    ensures x - 0.5 < r as real <= x + 0.5
  {
    (x + 0.5).Floor
  }

  lemma MulMonotone(a: int, b: int, c: int)
    requires a <= b && c >= 0
    ensures a * c <= b * c
  {
    assert b * c - a * c == (b - a) * c;
  }

  /** The sum of `f` over a sequence, from the front. */
  function SumOf<T>(s: seq<T>, f: T -> real): real {
    if s == [] then 0.0 else f(s[0]) + SumOf(s[1..], f)
  }

  lemma {:induction false} SumOfAppend<T>(a: seq<T>, b: seq<T>, f: T -> real)
    ensures SumOf(a + b, f) == SumOf(a, f) + SumOf(b, f)
  {
    if a != [] {
      assert (a + b)[1..] == a[1..] + b;
      SumOfAppend(a[1..], b, f);
    } else {
      assert a + b == b;
    }
  }

  /** The elements of `s` that pass `f`, in their order (a WHERE clause). */
  function Filter<T(!new)>(s: seq<T>, f: T -> bool): (r: seq<T>)
    ensures |r| <= |s|
    ensures forall x :: x in r <==> x in s && f(x)
  {
    if s == [] then []
    else (if f(s[0]) then [s[0]] else []) + Filter(s[1..], f)
  }

  /** Two tests that agree on every element select the same elements. */
  lemma {:induction false} FilterCongruent<T(!new)>(s: seq<T>, f: T -> bool, g: T -> bool)
    requires forall i :: 0 <= i < |s| ==> f(s[i]) == g(s[i])
    ensures Filter(s, f) == Filter(s, g)
  {
    if s != [] {
      FilterCongruent(s[1..], f, g);
    }
  }

  function Min(a: int, b: int): int {
    if a <= b then a else b
  }

  /** The set of values a sequence holds; it has as many as the sequence
      has elements exactly when no value repeats. */
  function Elements<T>(s: seq<T>): set<T> {
    set x | x in s
  }

  predicate Distinct<T(==)>(s: seq<T>) {
    forall i, j :: 0 <= i < j < |s| ==> s[i] != s[j]
  }

  lemma {:induction false} ElementsCount<T>(s: seq<T>)
    ensures |Elements(s)| <= |s|
    ensures |Elements(s)| == |s| <==> Distinct(s)
  {
    if s != [] {
      var t := s[1..];
      ElementsCount(t);
      assert Elements(s) == Elements(t) + {s[0]};
      if s[0] in t {
        assert Elements(s) == Elements(t);
        var k :| 0 <= k < |t| && t[k] == s[0];
        assert s[0] == s[k + 1];
        assert !Distinct(s);
      } else {
        assert |Elements(s)| == |Elements(t)| + 1;
        if Distinct(s) {
          assert Distinct(t) by {
            forall i, j | 0 <= i < j < |t| ensures t[i] != t[j] {
              assert t[i] == s[i + 1] && t[j] == s[j + 1];
            }
          }
        } else {
          var i, j :| 0 <= i < j < |s| && s[i] == s[j];
          assert s[j] == t[j - 1];
          assert t[i - 1] == t[j - 1];
        }
      }
    }
  }

  /** A sequence without repeats holds each element at most once. */
  lemma {:induction false} DistinctAtMostOnce<T>(s: seq<T>)
    requires Distinct(s)
    ensures forall x :: multiset(s)[x] <= 1
  {
    if s != [] {
      assert Distinct(s[1..]) by {
        forall i, j | 0 <= i < j < |s[1..]| ensures s[1..][i] != s[1..][j] {
          assert s[1..][i] == s[i + 1] && s[1..][j] == s[j + 1];
        }
      }
      DistinctAtMostOnce(s[1..]);
      assert s == [s[0]] + s[1..];
      forall k | 0 <= k < |s[1..]| ensures s[1..][k] != s[0] {
        assert s[1..][k] == s[k + 1];
      }
      assert s[0] !in s[1..];
    }
  }

  /** A sequence holding each element at most once has no repeated position. */
  lemma AtMostOnceDistinct<T>(s: seq<T>, i: int, j: int)
    requires forall x :: multiset(s)[x] <= 1
    requires 0 <= i < j < |s|
    ensures s[i] != s[j]
  {
    var x := s[i];
    assert s == s[..j] + s[j..];
    assert multiset(s)[x] == multiset(s[..j])[x] + multiset(s[j..])[x];
    assert x in s[..j];
    assert x !in multiset(s[j..]);
    assert s[j] == s[j..][0];
  }

  lemma EmptyByElements(s: set<int>)
    requires forall x :: x !in s
    ensures s == {}
  {
    assert forall x :: x in s <==> x in {};
  }

  /** A set of ids that is not empty has an element to pick. */
  lemma NonEmptyHasElement(s: set<int>)
    requires s != {}
    ensures exists x :: x in s
  {
    if forall x :: x !in s {
      EmptyByElements(s);
      assert false;
    }
  }
}
