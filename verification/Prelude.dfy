/** Result types and sequence vocabulary shared by the model. */
module Prelude {
  /** Workers are known by an identifier. */
  type WorkerId = nat

  datatype Option<+T> = None | Some(value: T)

  datatype Result<+T, +E> = Ok(value: T) | Err(error: E)

  /** No element occurs twice. */
  ghost predicate NoDup<T>(s: seq<T>) {
    forall i, j :: 0 <= i < j < |s| ==> s[i] != s[j]
  }

  /** The elements of `s`. */
  ghost function Elems<T>(s: seq<T>): set<T> {
    set x | x in s
  }

  /** The elements of `s` that satisfy `p`, in order. */
  function Filter<T>(s: seq<T>, p: T -> bool): (r: seq<T>)
    ensures |r| <= |s|
  {
    if s == [] then []
    else Filter(s[..|s| - 1], p) + (if p(s[|s| - 1]) then [s[|s| - 1]] else [])
  }

  lemma {:induction false} FilterMember<T>(s: seq<T>, p: T -> bool, x: T)
    ensures x in Filter(s, p) <==> x in s && p(x)
  {
    if s == [] {
    } else {
      assert s == s[..|s| - 1] + [s[|s| - 1]];
      FilterMember(s[..|s| - 1], p, x);
    }
  }

  lemma {:induction false} FilterConcat<T>(a: seq<T>, b: seq<T>, p: T -> bool)
    ensures Filter(a + b, p) == Filter(a, p) + Filter(b, p)
  {
    if b == [] {
      assert a + b == a;
    } else {
      assert (a + b)[..|a + b| - 1] == a + b[..|b| - 1];
      FilterConcat(a, b[..|b| - 1], p);
    }
  }

  lemma {:induction false} FilterNoDup<T>(s: seq<T>, p: T -> bool)
    requires NoDup(s)
    ensures NoDup(Filter(s, p))
  {
    if s == [] {
    } else {
      FilterNoDup(s[..|s| - 1], p);
      FilterMember(s[..|s| - 1], p, s[|s| - 1]);
    }
  }

  lemma NoDupAppend<T>(s: seq<T>, x: T)
    requires NoDup(s) && x !in s
    ensures NoDup(s + [x])
  {
  }

  lemma NoDupConcat<T>(a: seq<T>, b: seq<T>)
    requires NoDup(a) && NoDup(b) && forall x :: x in a ==> x !in b
    ensures NoDup(a + b)
  {
    var s := a + b;
    forall i, j | 0 <= i < j < |s| ensures s[i] != s[j] {
      assert s[i] == if i < |a| then a[i] else b[i - |a|];
      assert s[j] == if j < |a| then a[j] else b[j - |a|];
      if i < |a| <= j {
        assert a[i] in a && b[j - |a|] in b;
      }
    }
  }

  lemma NoDupParts<T>(a: seq<T>, b: seq<T>)
    requires NoDup(a + b)
    ensures NoDup(a) && NoDup(b) && forall x :: x in a ==> x !in b
  {
    var s := a + b;
    assert forall i :: 0 <= i < |a| ==> s[i] == a[i];
    assert forall i :: 0 <= i < |b| ==> s[|a| + i] == b[i];
  }

  /** A list without repetition has as many elements as its set. */
  lemma {:induction false} NoDupSize<T>(s: seq<T>)
    requires NoDup(s)
    ensures |Elems(s)| == |s|
  {
    if s == [] {
      assert Elems(s) == {};
    } else {
      var init, last := s[..|s| - 1], s[|s| - 1];
      NoDupSize(init);
      assert Elems(s) == Elems(init) + {last};
      assert last !in Elems(init);
    }
  }

  /** Two lists without repetition over the same elements are permutations of each other. */
  lemma NoDupMultiset<T>(a: seq<T>, b: seq<T>)
    requires NoDup(a) && NoDup(b) && Elems(a) == Elems(b)
    ensures multiset(a) == multiset(b)
  {
    forall x ensures multiset(a)[x] == multiset(b)[x] {
      NoDupCount(a, x);
      NoDupCount(b, x);
      assert x in a <==> x in Elems(a);
      assert x in b <==> x in Elems(b);
    }
  }

  lemma {:induction false} NoDupCount<T>(s: seq<T>, x: T)
    requires NoDup(s)
    ensures multiset(s)[x] == if x in s then 1 else 0
  {
    if s == [] {
    } else {
      NoDupCount(s[..|s| - 1], x);
      assert s == s[..|s| - 1] + [s[|s| - 1]];
    }
  }

  lemma SubsetSize<T>(a: set<T>, b: set<T>)
    requires a <= b
    ensures |a| <= |b|
  {
    assert b == a + (b - a);
    assert |b| == |a| + |b - a|;
  }

  /** Position of the first `x`, or the length of `s`. */
  function FirstOf<T(==)>(s: seq<T>, x: T): (r: nat)
    ensures r <= |s| && (r < |s| ==> s[r] == x) && forall i :: 0 <= i < r ==> s[i] != x
  {
    if s == [] then 0 else if s[0] == x then 0 else 1 + FirstOf(s[1..], x)
  }

  lemma ElemsAppend<T>(s: seq<T>, x: T)
    ensures Elems(s + [x]) == Elems(s) + {x}
  {
  }

  lemma TakeNext<T>(s: seq<T>, j: nat)
    requires j < |s|
    ensures s[..j + 1] == s[..j] + [s[j]]
  {
  }

  lemma AppendInside<T>(a: seq<T>, b: seq<T>, x: T)
    ensures (a + b) + [x] == a + (b + [x])
  {
  }

  lemma DropFront<T>(a: seq<T>, b: seq<T>)
    ensures (a + b)[..|a|] == a && (a + b)[|a|..] == b
  {
  }
}
