/** Families of multisets indexed by bucket, and list functions over buckets. */
module Buckets {
  import opened Prelude

  /** Sum of the multisets of buckets 0 to n - 1. */
  ghost function SumOver<T>(n: nat, g: nat -> multiset<T>): multiset<T> {
    if n == 0 then multiset{} else SumOver(n - 1, g) + g(n - 1)
  }

  lemma {:induction false} SumExt<T>(n: nat, g: nat -> multiset<T>, h: nat -> multiset<T>)
    requires forall b :: 0 <= b < n ==> g(b) == h(b)
    ensures SumOver(n, g) == SumOver(n, h)
  {
    if n == 0 {
    } else {
      SumExt(n - 1, g, h);
    }
  }

  lemma {:induction false} SumZero<T>(n: nat, g: nat -> multiset<T>)
    requires forall b :: 0 <= b < n ==> g(b) == multiset{}
    ensures SumOver(n, g) == multiset{}
  {
    if n == 0 {
    } else {
      SumZero(n - 1, g);
    }
  }

  lemma {:induction false} SumMember<T>(n: nat, g: nat -> multiset<T>, x: T)
    ensures x in SumOver(n, g) <==> exists b :: 0 <= b < n && x in g(b)
  {
    if n == 0 {
    } else {
      SumMember(n - 1, g, x);
    }
  }

  /** Adding `extra` to one bucket adds it to the sum. */
  lemma {:induction false} SumUpdate<T>(n: nat, g: nat -> multiset<T>, h: nat -> multiset<T>, at: nat,
                                        extra: multiset<T>)
    requires forall b :: 0 <= b < n ==> h(b) == if b == at then g(b) + extra else g(b)
    ensures SumOver(n, h) == if at < n then SumOver(n, g) + extra else SumOver(n, g)
  {
    if n == 0 {
    } else {
      SumUpdate(n - 1, g, h, at, extra);
    }
  }

  lemma {:induction false} SumAdd<T>(n: nat, g: nat -> multiset<T>, h: nat -> multiset<T>, both: nat -> multiset<T>)
    requires forall b :: 0 <= b < n ==> both(b) == g(b) + h(b)
    ensures SumOver(n, both) == SumOver(n, g) + SumOver(n, h)
  {
    if n == 0 {
    } else {
      SumAdd(n - 1, g, h, both);
    }
  }

  /** `f` of every element, one after the other. */
  function Expand<A, B>(s: seq<A>, f: A -> seq<B>): seq<B> {
    if s == [] then [] else Expand(s[..|s| - 1], f) + f(s[|s| - 1])
  }

  lemma {:induction false} ExpandConcat<A, B>(a: seq<A>, b: seq<A>, f: A -> seq<B>)
    ensures Expand(a + b, f) == Expand(a, f) + Expand(b, f)
  {
    if b == [] {
      assert a + b == a;
    } else {
      assert (a + b)[..|a + b| - 1] == a + b[..|b| - 1];
      ExpandConcat(a, b[..|b| - 1], f);
    }
  }

  lemma {:induction false} ExpandExt<A, B>(s: seq<A>, f: A -> seq<B>, g: A -> seq<B>)
    requires forall x :: x in s ==> f(x) == g(x)
    ensures Expand(s, f) == Expand(s, g)
  {
    if s == [] {
    } else {
      ExpandExt(s[..|s| - 1], f, g);
    }
  }

  lemma ExpandMiddle<A, B>(a: seq<A>, x: A, b: seq<A>, f: A -> seq<B>)
    ensures multiset(Expand((a + [x]) + b, f)) == multiset(Expand(a + b, f)) + multiset(f(x))
  {
    ExpandConcat(a + [x], b, f);
    ExpandConcat(a, [x], f);
    ExpandConcat(a, b, f);
    assert Expand([x], f) == f(x);
  }

  /** A list equal, up to order, to one that starts with `x` has `x` somewhere, and the rest elsewhere. */
  lemma SplitAt<A>(x: A, rest: seq<A>, b: seq<A>) returns (before: seq<A>, after: seq<A>)
    requires multiset([x] + rest) == multiset(b)
    ensures b == (before + [x]) + after
    ensures multiset(rest) == multiset(before + after)
  {
    assert x in multiset(b);
    var j :| 0 <= j < |b| && b[j] == x;
    before, after := b[..j], b[j + 1..];
    assert b == (before + [x]) + after;
    assert multiset(before + after) == multiset(b) - multiset{x};
    assert multiset(rest) == multiset([x] + rest) - multiset{x};
  }

  /** Permuting the input of `Expand` permutes its output. */
  lemma {:induction false} ExpandPermuted<A, B>(a: seq<A>, b: seq<A>, f: A -> seq<B>)
    requires multiset(a) == multiset(b)
    ensures multiset(Expand(a, f)) == multiset(Expand(b, f))
    decreases |a|
  {
    if a == [] {
      assert |b| == |multiset(b)| == 0;
    } else {
      var x, rest := a[0], a[1..];
      assert a == [x] + rest && a == ([] + [x]) + rest && [] + rest == rest;
      var before, after := SplitAt(x, rest, b);
      ExpandMiddle([], x, rest, f);
      ExpandMiddle(before, x, after, f);
      ExpandPermuted(rest, before + after, f);
    }
  }

  /** The elements of bucket `b`. */
  function Bucket<A>(s: seq<A>, at: A -> nat, b: nat): seq<A> {
    Filter(s, x => at(x) == b)
  }

  lemma BucketAppend<A>(s: seq<A>, x: A, at: A -> nat, b: nat)
    ensures Bucket(s + [x], at, b) == Bucket(s, at, b) + (if at(x) == b then [x] else [])
  {
    assert (s + [x])[..|s|] == s;
  }

  lemma InBucket<A>(s: seq<A>, at: A -> nat, b: nat, x: A)
    ensures x in Bucket(s, at, b) <==> x in s && at(x) == b
  {
    FilterMember(s, x => at(x) == b, x);
  }

  lemma BucketNoDup<A>(s: seq<A>, at: A -> nat, b: nat)
    requires NoDup(s)
    ensures NoDup(Bucket(s, at, b))
  {
    FilterNoDup(s, x => at(x) == b);
  }

  /** Selecting elements that all lie in one bucket finds them all in that bucket. */
  lemma {:induction false} SelectInBucket<A>(s: seq<A>, at: A -> nat, b: nat, q: A -> bool)
    requires forall x :: x in s && q(x) ==> at(x) == b
    ensures Filter(Bucket(s, at, b), q) == Filter(s, q)
  {
    if s == [] {
    } else {
      var init, x := s[..|s| - 1], s[|s| - 1];
      assert s == init + [x] && x in s;
      SelectInBucket(init, at, b, q);
      BucketAppend(init, x, at, b);
      FilterConcat(Bucket(init, at, b), if at(x) == b then [x] else [], q);
    }
  }

  /** What `f` yields on bucket `b`, for each `b`. */
  ghost function PerBucket<A, B>(s: seq<A>, at: A -> nat, f: A -> seq<B>): nat -> multiset<B> {
    (b: nat) => multiset(Expand(Bucket(s, at, b), f))
  }

  /** Splitting a list into buckets and applying `f` bucket by bucket gives the same elements. */
  lemma {:induction false} ExpandByBucket<A, B>(s: seq<A>, at: A -> nat, n: nat, f: A -> seq<B>)
    requires forall x :: x in s ==> at(x) < n
    ensures SumOver(n, PerBucket(s, at, f)) == multiset(Expand(s, f))
  {
    var g := PerBucket(s, at, f);
    if s == [] {
      SumZero(n, g);
    } else {
      var init, x := s[..|s| - 1], s[|s| - 1];
      var g0 := PerBucket(init, at, f);
      assert s == init + [x];
      assert x in s;
      ExpandByBucket(init, at, n, f);
      forall b | 0 <= b < n ensures g(b) == if b == at(x) then g0(b) + multiset(f(x)) else g0(b) {
        BucketAppend(init, x, at, b);
        if b == at(x) {
          ExpandConcat(Bucket(init, at, b), [x], f);
          assert Expand([x], f) == f(x);
        } else {
          assert Bucket(s, at, b) == Bucket(init, at, b);
        }
      }
      SumUpdate(n, g0, g, at(x), multiset(f(x)));
    }
  }
}
