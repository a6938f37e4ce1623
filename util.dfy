/** Shared vocabulary: an error-carrying result type and the few string
    operations the Rust standard library supplies to the program
    (`starts_with`, `ends_with`, `contains`) and a `FlatMap` for nested
    loops, stated over `seq<char>` and sequences. */
module Util {

  /** The outcome of an operation that may abort; `Err` stands for a
      `panic!` or an `expect` that fires, passed up to the caller. */
  datatype Result<+T, +E> = Ok(value: T) | Err(error: E) {
    predicate IsFailure() {
      Err?
    }

    function PropagateFailure<U>(): Result<U, E>
      requires Err?
    {
      Err(error)
    }

    function Extract(): T
      requires Ok?
    {
      value
    }
  }

  /** `str::starts_with` */
  predicate StartsWith(s: string, prefix: string) {
    |prefix| <= |s| && s[..|prefix|] == prefix
  }

  /** `str::ends_with` */
  predicate EndsWith(s: string, suffix: string) {
    |suffix| <= |s| && s[|s| - |suffix|..] == suffix
  }

  /** `str::contains` with a string pattern: a literal, case-sensitive
      substring test, written as the scan of every start position. */
  predicate Contains(s: string, pattern: string)
    decreases |s|
  {
    StartsWith(s, pattern) || (|s| > 0 && Contains(s[1..], pattern))
  }

  /** Some line of `lines` contains `pattern`. */
  predicate AnyContains(lines: seq<string>, pattern: string) {
    exists i :: 0 <= i < |lines| && Contains(lines[i], pattern)
  }

  /** `pattern` occurs in `s` starting at index `i`. */
  predicate OccursAt(s: string, pattern: string, i: int) {
    0 <= i <= |s| - |pattern| && s[i..i + |pattern|] == pattern
  }

  /** The scan agrees with the positional definition of a substring. */
  lemma {:induction false} ContainsAt(s: string, pattern: string)
    ensures Contains(s, pattern) <==> exists i :: OccursAt(s, pattern, i)
    decreases |s|
  {
    if StartsWith(s, pattern) {
      assert OccursAt(s, pattern, 0);
    }
    if |s| > 0 {
      ContainsAt(s[1..], pattern);
      if Contains(s[1..], pattern) {
        var i :| OccursAt(s[1..], pattern, i);
        assert s[i + 1..i + 1 + |pattern|] == s[1..][i..i + |pattern|];
        assert OccursAt(s, pattern, i + 1);
      }
      if exists i :: OccursAt(s, pattern, i) {
        var i :| OccursAt(s, pattern, i);
        if i > 0 {
          assert s[1..][i - 1..i - 1 + |pattern|] == s[i..i + |pattern|];
          assert OccursAt(s[1..], pattern, i - 1);
        }
      }
    } else {
      if exists i :: OccursAt(s, pattern, i) {
        var i :| OccursAt(s, pattern, i);
        assert i == 0 && |pattern| == 0;
        assert StartsWith(s, pattern);
      }
    }
  }

  lemma AnyContainsAppend(a: seq<string>, b: seq<string>, pattern: string)
    ensures AnyContains(a + b, pattern) <==> AnyContains(a, pattern) || AnyContains(b, pattern)
  {
    if AnyContains(a + b, pattern) {
      var i :| 0 <= i < |a + b| && Contains((a + b)[i], pattern);
      if i >= |a| {
        assert b[i - |a|] == (a + b)[i];
      }
    }
    if AnyContains(a, pattern) {
      var i :| 0 <= i < |a| && Contains(a[i], pattern);
      assert (a + b)[i] == a[i];
    }
    if AnyContains(b, pattern) {
      var i :| 0 <= i < |b| && Contains(b[i], pattern);
      assert (a + b)[|a| + i] == b[i];
      assert 0 <= |a| + i < |a + b| && Contains((a + b)[|a| + i], pattern);
    }
  }

  /** The concatenation of `f` applied to every element, in order: the
      shape of a `for` loop that writes each element's lines. */
  function FlatMap<T, U>(xs: seq<T>, f: T -> seq<U>): seq<U>
    decreases |xs|
  {
    if xs == [] then [] else f(xs[0]) + FlatMap(xs[1..], f)
  }

  lemma {:induction false} FlatMapAppend<T, U>(xs: seq<T>, ys: seq<T>, f: T -> seq<U>)
    ensures FlatMap(xs + ys, f) == FlatMap(xs, f) + FlatMap(ys, f)
    decreases |xs|
  {
    if xs != [] {
      assert (xs + ys)[1..] == xs[1..] + ys;
      FlatMapAppend(xs[1..], ys, f);
    } else {
      assert xs + ys == ys;
    }
  }

  lemma FlatMapSnoc<T, U>(xs: seq<T>, x: T, f: T -> seq<U>)
    ensures FlatMap(xs + [x], f) == FlatMap(xs, f) + f(x)
  {
    FlatMapAppend(xs, [x], f);
    assert FlatMap([x], f) == f(x) + FlatMap([x][1..], f);
    assert [x][1..] == [];
  }
}
