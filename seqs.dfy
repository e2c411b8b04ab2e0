/** Sequence operations behind the LINQ and `List<T>` calls of the catalog
    service: `Where` (Filter), the complementary selection used to build a
    removal list (Reject), `List<T>.Remove` (RemoveFirst), and the ordered
    duplicate removal that a `Contains`/`Add` loop performs (Distinct). */
module Seqs {
  import opened Common

  /** `r` is `s` with some elements left out and the rest in their original order. */
  predicate IsSubseq<T(==)>(r: seq<T>, s: seq<T>)
    decreases |s|
  {
    r == [] || (s != [] && ((r[0] == s[0] && IsSubseq(r[1..], s[1..])) || IsSubseq(r, s[1..])))
  }

  /** LINQ `Where(keep)`: the elements of `s` that satisfy `keep`, in order. */
  function Filter<T(==)>(s: seq<T>, keep: T -> bool): (r: seq<T>)
    ensures IsSubseq(r, s)
    ensures forall x :: x in r ==> x in s && keep(x)
    ensures forall x :: x in s && keep(x) ==> multiset(r)[x] == multiset(s)[x]
    decreases |s|
  {
    if s == [] then []
    else
      assert s == [s[0]] + s[1..];
      if keep(s[0]) then [s[0]] + Filter(s[1..], keep) else Filter(s[1..], keep)
  }

  /** An element is in the filter result exactly when it is in `s` and passes. */
  lemma InFilter<T>(s: seq<T>, keep: T -> bool, x: T)
    ensures x in Filter(s, keep) <==> x in s && keep(x)
  {
    if x in s && keep(x) {
      assert multiset(Filter(s, keep))[x] == multiset(s)[x];
      assert x in multiset(s);
    }
  }

  /** The elements of `s` that fail `keep`, in order: the removal list
      `Where(p => !keep(p)).ToList()`. */
  function Reject<T(==)>(s: seq<T>, keep: T -> bool): (r: seq<T>)
    ensures IsSubseq(r, s)
    ensures forall x :: x in r ==> x in s && !keep(x)
    ensures forall x :: x in s && !keep(x) ==> x in r
    ensures forall x :: x in s && !keep(x) ==> multiset(r)[x] == multiset(s)[x]
    decreases |s|
  {
    if s == [] then []
    else
      assert s == [s[0]] + s[1..];
      if keep(s[0]) then Reject(s[1..], keep)
      else [s[0]] + Reject(s[1..], keep)
  }

  /** `List<T>.Remove(x)`: drops the first element equal to `x`; a list
      without `x` is left as it is. */
  function RemoveFirst<T(==)>(s: seq<T>, x: T): (r: seq<T>)
    ensures x !in s ==> r == s
    ensures x in s ==> |r| == |s| - 1
    ensures x in s ==> r == s[..FirstIndex(s, x)] + s[FirstIndex(s, x) + 1..]
    ensures IsSubseq(r, s)
    decreases |s|
  {
    if s == [] then []
    else if s[0] == x then
      RemoveFirstHead(s, x);
      s[1..]
    else
      var rest := RemoveFirst(s[1..], x);
      RemoveFirstCons(s, x, rest);
      [s[0]] + rest
  }

  /** The base step of RemoveFirst: a head equal to `x` is its first occurrence. */
  lemma RemoveFirstHead<T>(s: seq<T>, x: T)
    requires s != [] && s[0] == x
    ensures FirstIndex(s, x) == 0 && s[1..] == s[..0] + s[1..]
    ensures IsSubseq(s[1..], s)
  {
    SubseqRefl(s[1..]);
  }

  /** The recursive step of RemoveFirst: keeping a head different from `x`
      in front of the tail with `x`'s first occurrence removed removes the
      first occurrence of `x` from the whole sequence. */
  lemma RemoveFirstCons<T>(s: seq<T>, x: T, rest: seq<T>)
    requires s != [] && s[0] != x
    requires x !in s[1..] ==> rest == s[1..]
    requires x in s[1..] ==> rest == s[1..][..FirstIndex(s[1..], x)] + s[1..][FirstIndex(s[1..], x) + 1..]
    requires IsSubseq(rest, s[1..])
    ensures x !in s ==> [s[0]] + rest == s
    ensures x in s ==> [s[0]] + rest == s[..FirstIndex(s, x)] + s[FirstIndex(s, x) + 1..]
    ensures IsSubseq([s[0]] + rest, s)
  {
    assert s == [s[0]] + s[1..];
    assert ([s[0]] + rest)[1..] == rest;
    if x in s {
      FirstIndexCons(s, x);
    }
  }

  /** Past a head different from `x`, the split around `x`'s first
      occurrence is the tail's split with the head in front. */
  lemma FirstIndexCons<T>(s: seq<T>, x: T)
    requires s != [] && s[0] != x && x in s
    ensures x in s[1..]
    ensures s[..FirstIndex(s, x)] == [s[0]] + s[1..][..FirstIndex(s[1..], x)]
    ensures s[FirstIndex(s, x) + 1..] == s[1..][FirstIndex(s[1..], x) + 1..]
  {
    assert s == [s[0]] + s[1..];
    var k := FirstIndex(s[1..], x);
    assert FirstIndex(s, x) == k + 1;
  }

  lemma {:induction false} SubseqRefl<T>(s: seq<T>)
    ensures IsSubseq(s, s)
    decreases |s|
  {
    if s != [] {
      SubseqRefl(s[1..]);
    }
  }

  /** `s` after the first `n` elements that fail `keep` have been taken out. */
  function DropRejected<T(==)>(s: seq<T>, n: nat, keep: T -> bool): seq<T>
    decreases |s|
  {
    if n == 0 || s == [] then s
    else if keep(s[0]) then [s[0]] + DropRejected(s[1..], n, keep)
    else DropRejected(s[1..], n - 1, keep)
  }

  /** Removing (by value) the next element of the removal list takes out
      exactly the next rejected element: no kept element equals a rejected
      one, so the first occurrence is the right one. */
  lemma {:induction false} RemoveNextRejected<T>(s: seq<T>, keep: T -> bool, i: nat)
    requires i < |Reject(s, keep)|
    ensures RemoveFirst(DropRejected(s, i, keep), Reject(s, keep)[i]) == DropRejected(s, i + 1, keep)
    decreases |s|
  {
    assert s == [s[0]] + s[1..];
    var v := Reject(s, keep)[i];
    assert v in Reject(s, keep);
    assert !keep(v);
    if keep(s[0]) {
      RemoveNextRejected(s[1..], keep, i);
      assert s[0] != v;
    } else if i > 0 {
      RemoveNextRejected(s[1..], keep, i - 1);
    }
  }

  /** Once every rejected element has been removed, what remains is the filter. */
  lemma {:induction false} DropAllRejected<T>(s: seq<T>, keep: T -> bool)
    ensures DropRejected(s, |Reject(s, keep)|, keep) == Filter(s, keep)
    decreases |s|
  {
    if s != [] {
      DropAllRejected(s[1..], keep);
      if !keep(s[0]) {
        DropHeadRejected(s, keep);
      } else if |Reject(s[1..], keep)| == 0 {
        NothingRejected(s, keep);
      } else {
        DropHeadKept(s, keep);
      }
    }
  }

  /** The inductive step of DropAllRejected when the head is rejected. */
  lemma DropHeadRejected<T>(s: seq<T>, keep: T -> bool)
    requires s != [] && !keep(s[0])
    requires DropRejected(s[1..], |Reject(s[1..], keep)|, keep) == Filter(s[1..], keep)
    ensures DropRejected(s, |Reject(s, keep)|, keep) == Filter(s, keep)
  {
    assert Reject(s, keep) == [s[0]] + Reject(s[1..], keep);
  }

  /** The inductive step of DropAllRejected when the head is kept. */
  lemma DropHeadKept<T>(s: seq<T>, keep: T -> bool)
    requires s != [] && keep(s[0]) && |Reject(s[1..], keep)| > 0
    requires DropRejected(s[1..], |Reject(s[1..], keep)|, keep) == Filter(s[1..], keep)
    ensures DropRejected(s, |Reject(s, keep)|, keep) == Filter(s, keep)
  {
    assert Reject(s, keep) == Reject(s[1..], keep);
  }

  lemma {:induction false} NothingRejected<T>(s: seq<T>, keep: T -> bool)
    requires |Reject(s, keep)| == 0
    ensures Filter(s, keep) == s
    decreases |s|
  {
    if s != [] {
      NothingRejected(s[1..], keep);
    }
  }

  /** A filter that every element passes changes nothing. */
  lemma {:induction false} FilterAll<T>(s: seq<T>, keep: T -> bool)
    requires forall x :: x in s ==> keep(x)
    ensures Filter(s, keep) == s
    decreases |s|
  {
    if s != [] {
      assert s[0] in s;
      FilterAll(s[1..], keep);
    }
  }

  /** Two filters in a row are one filter on the conjunction. */
  lemma {:induction false} FilterCompose<T>(s: seq<T>, a: T -> bool, b: T -> bool, c: T -> bool)
    requires forall x :: c(x) == (a(x) && b(x))
    ensures Filter(Filter(s, a), b) == Filter(s, c)
    decreases |s|
  {
    if s != [] {
      FilterCompose(s[1..], a, b, c);
    }
  }

  /** Filters with predicates that agree everywhere give the same result. */
  lemma {:induction false} FilterExt<T>(s: seq<T>, a: T -> bool, b: T -> bool)
    requires forall x :: a(x) == b(x)
    ensures Filter(s, a) == Filter(s, b)
    decreases |s|
  {
    if s != [] {
      FilterExt(s[1..], a, b);
    }
  }

  /** `FirstOrDefault(p)` read as a position: the first index whose element
      satisfies `p`, or None when no element does. */
  function FirstWhere<T>(s: seq<T>, p: T -> bool): (k: Option<nat>)
    ensures k.Some? ==> k.value < |s| && p(s[k.value])
    ensures k.Some? ==> forall i :: 0 <= i < k.value ==> !p(s[i])
    ensures k.None? ==> forall i :: 0 <= i < |s| ==> !p(s[i])
    decreases |s|
  {
    if s == [] then None
    else if p(s[0]) then Some(0)
    else match FirstWhere(s[1..], p)
      case None => None
      case Some(k) => Some(k + 1)
  }

  /** No element occurs twice. */
  predicate NoDuplicates<T(==)>(s: seq<T>)
  {
    forall i, j :: 0 <= i < j < |s| ==> s[i] != s[j]
  }

  /** The position of the first occurrence of `x` in `s`. */
  function FirstIndex<T(==)>(s: seq<T>, x: T): (k: nat)
    requires x in s
    ensures k < |s| && s[k] == x && x !in s[..k]
    decreases |s|
  {
    if s[0] == x then 0
    else
      var k := 1 + FirstIndex(s[1..], x);
      assert s[..k] == [s[0]] + s[1..][..k - 1];
      k
  }

  /** Appending to a sequence does not move first occurrences already in it. */
  lemma {:induction false} FirstIndexAppend<T>(s: seq<T>, a: T, x: T)
    requires x in s
    ensures FirstIndex(s + [a], x) == FirstIndex(s, x)
    decreases |s|
  {
    if s[0] != x {
      assert (s + [a])[1..] == s[1..] + [a];
      FirstIndexAppend(s[1..], a, x);
    }
  }

  /** The elements of `s` without repetitions, in order of first appearance:
      what a loop that adds each element not yet `Contains`-ed builds. */
  function Distinct<T(==)>(s: seq<T>): (d: seq<T>)
    ensures |d| <= |s|
    decreases |s|
  {
    if s == [] then []
    else
      var d := Distinct(s[..|s| - 1]);
      if s[|s| - 1] in d then d else d + [s[|s| - 1]]
  }

  /** `Distinct` keeps every value of `s`, adds none, repeats none, and lists
      them in the order in which they first appear in `s`. */
  lemma {:induction false} DistinctSpec<T>(s: seq<T>)
    ensures forall x :: x in Distinct(s) ==> x in s
    ensures forall x :: x in s ==> x in Distinct(s)
    ensures NoDuplicates(Distinct(s))
    ensures forall i, j :: 0 <= i < j < |Distinct(s)| ==>
      FirstIndex(s, Distinct(s)[i]) < FirstIndex(s, Distinct(s)[j])
    decreases |s|
  {
    if s != [] {
      var init, a := s[..|s| - 1], s[|s| - 1];
      assert s == init + [a];
      DistinctSpec(init);
      var d := Distinct(init);
      forall x | x in init
        ensures FirstIndex(s, x) == FirstIndex(init, x)
      {
        FirstIndexAppend(init, a, x);
      }
      if a !in d {
        forall i | 0 <= i < |d|
          ensures FirstIndex(s, d[i]) < FirstIndex(s, a)
        {
          assert d[i] in d;
          assert FirstIndex(s, a) == |init|;
        }
      }
    }
  }

  /** Extending the input by one element extends `Distinct` by that element
      exactly when it is new: the unfolding of `Distinct`'s last step, as the
      deduplication loop of the in-memory repository uses it. */
  lemma DistinctSnoc<T>(s: seq<T>, a: T)
    ensures Distinct(s + [a]) == if a in Distinct(s) then Distinct(s) else Distinct(s) + [a]
  {
    assert (s + [a])[..|s + [a]| - 1] == s;
  }
}
