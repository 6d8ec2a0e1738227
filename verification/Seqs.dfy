/** Facts about sequences shared by the other modules. */
module Seqs {

  /** No element occurs twice. */
  ghost predicate Distinct<T>(s: seq<T>) {
    forall i, j :: 0 <= i < j < |s| ==> s[i] != s[j]
  }

  /** A slice does not notice what is appended later. */
  lemma SliceStable<T>(s: seq<T>, more: seq<T>, a: int, b: int)
    requires 0 <= a <= b <= |s|
    ensures (s + more)[a..b] == s[a..b]
  {
  }

  /** Moving a prefix from the front of one sequence to the end of another. */
  lemma MovePrefix<T>(done: seq<T>, todo: seq<T>, n: int)
    requires 0 <= n <= |todo|
    ensures (done + todo[..n]) + todo[n..] == done + todo
  {
    assert todo == todo[..n] + todo[n..];
  }

  lemma SliceToEnd<T>(s: seq<T>, a: int, b: int)
    requires 0 <= a <= b <= |s|
    ensures s[a..b] + s[b..] == s[a..]
  {
  }

  lemma TakeNext<T>(s: seq<T>, i: int, x: T)
    requires 0 <= i < |s|
    ensures x in s[..i + 1] <==> x in s[..i] || x == s[i]
  {
    assert s[..i + 1] == s[..i] + [s[i]];
  }

  /** Search from the front and erase the first match, as the erase loops of the source do. */
  function Erase<T(==)>(s: seq<T>, x: T): seq<T> {
    if s == [] then []
    else if s[0] == x then s[1..]
    else [s[0]] + Erase(s[1..], x)
  }

  lemma {:induction false} EraseMembers<T>(s: seq<T>, x: T, y: T)
    requires x != y
    ensures y in Erase(s, x) <==> y in s
  {
    if s == [] {
    } else {
      assert s == [s[0]] + s[1..];
      if s[0] != x {
        EraseMembers(s[1..], x, y);
      }
    }
  }

  lemma {:induction false} EraseSubset<T>(s: seq<T>, x: T, y: T)
    requires y in Erase(s, x)
    ensures y in s
  {
    if s[0] != x && y != s[0] {
      EraseSubset(s[1..], x, y);
    }
  }

  /** On a list without repetition, erasing removes the element altogether. */
  lemma {:induction false} EraseDistinct<T>(s: seq<T>, x: T)
    requires Distinct(s)
    ensures Distinct(Erase(s, x))
    ensures x !in Erase(s, x)
  {
    if s == [] {
    } else if s[0] == x {
    } else {
      EraseDistinct(s[1..], x);
      if s[0] in Erase(s[1..], x) {
        EraseSubset(s[1..], x, s[0]);
      }
    }
  }

  /** An erase at a known first position. */
  lemma {:induction false} EraseAt<T>(s: seq<T>, x: T, k: nat)
    requires k < |s| && s[k] == x && x !in s[..k]
    ensures Erase(s, x) == s[..k] + s[k + 1..]
  {
    if k == 0 {
    } else {
      assert s[0] in s[..k];
      assert s[1..][..k - 1] == s[..k][1..];
      EraseAt(s[1..], x, k - 1);
    }
  }

  lemma {:induction false} EraseAbsent<T>(s: seq<T>, x: T)
    requires x !in s
    ensures Erase(s, x) == s
  {
    if s == [] {
    } else {
      EraseAbsent(s[1..], x);
    }
  }

  /** The elements of `s` that satisfy `f`, in order. */
  function Filter<T>(f: T -> bool, s: seq<T>): seq<T> {
    if s == [] then [] else (if f(s[0]) then [s[0]] else []) + Filter(f, s[1..])
  }

  lemma {:induction false} FilterConcat<T>(f: T -> bool, a: seq<T>, b: seq<T>)
    ensures Filter(f, a + b) == Filter(f, a) + Filter(f, b)
  {
    if a == [] {
      assert a + b == b;
    } else {
      var first := if f(a[0]) then [a[0]] else [];
      FilterConcat(f, a[1..], b);
      assert (a + b)[0] == a[0] && (a + b)[1..] == a[1..] + b;
      assert Filter(f, a + b) == first + (Filter(f, a[1..]) + Filter(f, b));
    }
  }

  lemma {:induction false} FilterMembers<T>(f: T -> bool, s: seq<T>, x: T)
    ensures x in Filter(f, s) <==> x in s && f(x)
  {
    if s == [] {
    } else {
      assert s == [s[0]] + s[1..];
      FilterMembers(f, s[1..], x);
    }
  }

  lemma {:induction false} FilterDistinct<T>(f: T -> bool, s: seq<T>)
    requires Distinct(s)
    ensures Distinct(Filter(f, s))
  {
    if s != [] {
      FilterDistinct(f, s[1..]);
      FilterMembers(f, s[1..], s[0]);
    }
  }

  lemma {:induction false} FilterAll<T>(f: T -> bool, s: seq<T>)
    requires forall x :: x in s ==> f(x)
    ensures Filter(f, s) == s
  {
    if s == [] {
    } else {
      FilterAll(f, s[1..]);
    }
  }

  lemma {:induction false} FilterNone<T>(f: T -> bool, s: seq<T>)
    requires forall x :: x in s ==> !f(x)
    ensures Filter(f, s) == []
  {
    if s == [] {
    } else {
      FilterNone(f, s[1..]);
    }
  }

  /** Filtering and erasing commute on elements that satisfy the filter. */
  lemma {:induction false} FilterErase<T>(f: T -> bool, s: seq<T>, x: T)
    ensures Filter(f, Erase(s, x)) == if f(x) then Erase(Filter(f, s), x) else Filter(f, s)
  {
    if s == [] {
    } else {
      var first := if f(s[0]) then [s[0]] else [];
      assert Filter(f, s) == first + Filter(f, s[1..]);
      assert first == [] ==> Filter(f, s) == Filter(f, s[1..]);
      assert first != [] ==> Filter(f, s)[1..] == Filter(f, s[1..]);
      if s[0] != x {
        FilterErase(f, s[1..], x);
        assert Erase(s, x)[1..] == Erase(s[1..], x);
      }
    }
  }
}
