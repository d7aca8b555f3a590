/** Sequence operations shared by the model: the per-line collection that the
    parsers' `for`/`push` loops perform, and `Array.prototype.filter` removing
    one element. */
module Sequences {
  import Strings

  /** The concatenation of `f(x)` over `xs`, in order. */
  function FlatMap<T, U>(xs: seq<T>, f: T -> seq<U>): seq<U> {
    if xs == [] then [] else FlatMap(xs[..|xs| - 1], f) + f(xs[|xs| - 1])
  }

  lemma {:induction false} FlatMapAppend<T, U>(a: seq<T>, b: seq<T>, f: T -> seq<U>)
    ensures FlatMap(a + b, f) == FlatMap(a, f) + FlatMap(b, f)
  {
    if b == [] {
      assert a + b == a;
    } else {
      var ab := a + b;
      assert ab[..|ab| - 1] == a + b[..|b| - 1];
      assert ab[|ab| - 1] == b[|b| - 1];
      FlatMapAppend(a, b[..|b| - 1], f);
    }
  }

  /** Collecting over the lines of two texts joined by a newline collects
      over the lines of each, in order. */
  lemma LinesConcat<U>(a: string, b: string, f: string -> seq<U>)
    ensures FlatMap(Strings.Split(a + "\n" + b, '\n'), f)
      == FlatMap(Strings.Split(a, '\n'), f) + FlatMap(Strings.Split(b, '\n'), f)
  {
    assert a + "\n" + b == a + ['\n'] + b;
    Strings.SplitConcat(a, '\n', b);
    FlatMapAppend(Strings.Split(a, '\n'), Strings.Split(b, '\n'), f);
  }

  lemma FlatMapSingle<T, U>(x: T, f: T -> seq<U>)
    ensures FlatMap([x], f) == f(x)
  {
    assert [x][..0] == [];
  }

  /** Something is in the result exactly when some element contributes it. */
  lemma {:induction false} FlatMapMembership<T, U>(xs: seq<T>, f: T -> seq<U>, u: U)
    ensures u in FlatMap(xs, f) <==> exists k :: 0 <= k < |xs| && u in f(xs[k])
  {
    if xs != [] {
      var init := xs[..|xs| - 1];
      FlatMapMembership(init, f, u);
      if u in FlatMap(xs, f) {
        if u in FlatMap(init, f) {
          var k :| 0 <= k < |init| && u in f(init[k]);
          assert xs[k] == init[k];
        } else {
          assert u in f(xs[|xs| - 1]);
        }
      } else {
        forall k | 0 <= k < |xs| ensures u !in f(xs[k]) {
          if k < |init| {
            assert xs[k] == init[k];
          }
        }
      }
    }
  }

  /** When every element contributes at most one value, a value is in the
      result exactly when some element contributes just that value. */
  lemma FlatMapSingletonMembership<T, U>(xs: seq<T>, f: T -> seq<U>, u: U)
    requires forall k :: 0 <= k < |xs| ==> |f(xs[k])| <= 1
    ensures u in FlatMap(xs, f) <==> exists k :: 0 <= k < |xs| && f(xs[k]) == [u]
  {
    FlatMapMembership(xs, f, u);
    if u in FlatMap(xs, f) {
      var k :| 0 <= k < |xs| && u in f(xs[k]);
      assert f(xs[k]) == [u];
    }
  }

  /** The total number of contributions. */
  function SumSizes<T, U>(xs: seq<T>, f: T -> seq<U>): nat {
    if xs == [] then 0 else SumSizes(xs[..|xs| - 1], f) + |f(xs[|xs| - 1])|
  }

  lemma {:induction false} FlatMapLength<T, U>(xs: seq<T>, f: T -> seq<U>)
    ensures |FlatMap(xs, f)| == SumSizes(xs, f)
  {
    if xs != [] {
      FlatMapLength(xs[..|xs| - 1], f);
    }
  }

  /** `s.filter(e => e !== x)`. */
  function Without<T(==)>(s: seq<T>, x: T): (r: seq<T>)
    ensures |r| <= |s|
  {
    if s == [] then [] else if s[0] == x then Without(s[1..], x) else [s[0]] + Without(s[1..], x)
  }

  /** Exactly `x` is removed: the other elements stay. */
  lemma {:induction false} WithoutMembers<T>(s: seq<T>, x: T, y: T)
    ensures y in Without(s, x) <==> y in s && y != x
  {
    if s != [] {
      WithoutMembers(s[1..], x, y);
      assert s == [s[0]] + s[1..];
    }
  }

  /** Removing an absent element changes nothing. */
  lemma {:induction false} WithoutAbsent<T>(s: seq<T>, x: T)
    requires x !in s
    ensures Without(s, x) == s
  {
    if s != [] {
      WithoutAbsent(s[1..], x);
      assert s == [s[0]] + s[1..];
    }
  }

  lemma {:induction false} WithoutAppend<T>(s: seq<T>, t: seq<T>, x: T)
    ensures Without(s + t, x) == Without(s, x) + Without(t, x)
  {
    if s == [] {
      assert s + t == t;
    } else {
      assert (s + t)[1..] == s[1..] + t;
      WithoutAppend(s[1..], t, x);
    }
  }

  /** Removing an element appended to a list that lacked it restores the list. */
  lemma AppendThenWithout<T>(s: seq<T>, x: T)
    requires x !in s
    ensures Without(s + [x], x) == s
  {
    WithoutAppend(s, [x], x);
    WithoutAbsent(s, x);
    assert Without([x], x) == [];
  }

  /** The remaining elements keep their relative order: removing from a list
      with no repetitions leaves the list minus that element's slot. */
  lemma {:induction false} WithoutAt<T>(s: seq<T>, k: nat)
    requires k < |s|
    requires forall i, j :: 0 <= i < j < |s| ==> s[i] != s[j]
    ensures Without(s, s[k]) == s[..k] + s[k + 1..]
  {
    if k == 0 {
      WithoutAbsent(s[1..], s[0]);
    } else {
      WithoutAt(s[1..], k - 1);
      assert s[1..][k - 1] == s[k];
      assert s[1..][..k - 1] == s[1..k];
      assert s[1..][k..] == s[k + 1..];
      assert s[..k] == [s[0]] + s[1..k];
    }
  }
}
