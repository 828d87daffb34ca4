/** Small shared vocabulary: an optional value and the "append if not already
    present" list idiom that both scripts use for de-duplication. */
module Util {

  /** A value that may be missing; `None` also stands for a Python exception
      that aborts the computation. */
  datatype Option<+T> = None | Some(value: T)

  /** No element occurs twice. */
  predicate NoDuplicates<T(==,!new)>(s: seq<T>) {
    forall i, j :: 0 <= i < j < |s| ==> s[i] != s[j]
  }

  /** The effect of `for x in xs: if x not in acc: acc.append(x)`: each element
      of `xs` not yet present is appended, in the order of `xs`. */
  function AddUnseen<T(==,!new)>(acc: seq<T>, xs: seq<T>): (r: seq<T>)
    ensures acc <= r
    ensures forall x :: x in r <==> x in acc || x in xs
    ensures forall x :: x in acc ==> x !in r[|acc|..]
    ensures NoDuplicates(r[|acc|..])
    ensures NoDuplicates(acc) ==> NoDuplicates(r)
    decreases |xs|
  {
    if xs == [] then acc
    else
      var acc' := if xs[0] in acc then acc else acc + [xs[0]];
      var r := AddUnseen(acc', xs[1..]);
      assert xs == [xs[0]] + xs[1..];
      assert xs[0] !in acc ==> r[|acc|..] == [xs[0]] + r[|acc'|..];
      r
  }

  /** The distinct elements of `xs`, each kept where it first occurs. */
  function Dedup<T(==,!new)>(xs: seq<T>): seq<T> {
    AddUnseen([], xs)
  }

  /** Reference definition, built from the back: position `i` of `xs` is kept
      exactly when `xs[i]` does not occur in `xs[..i]`. */
  function FirstOccurrences<T(==,!new)>(xs: seq<T>): seq<T>
    decreases |xs|
  {
    if xs == [] then []
    else
      var n := |xs| - 1;
      FirstOccurrences(xs[..n]) + (if xs[n] in xs[..n] then [] else [xs[n]])
  }

  /** Feeding `a + b` is feeding `a`, then `b`. */
  lemma {:induction false} AddUnseenAppend<T(!new)>(acc: seq<T>, a: seq<T>, b: seq<T>)
    ensures AddUnseen(acc, a + b) == AddUnseen(AddUnseen(acc, a), b)
    decreases |a|
  {
    if a == [] {
      assert a + b == b;
    } else {
      var acc' := if a[0] in acc then acc else acc + [a[0]];
      assert (a + b)[0] == a[0];
      assert (a + b)[1..] == a[1..] + b;
      AddUnseenAppend(acc', a[1..], b);
    }
  }

  /** De-duplication keeps exactly the first occurrence of every value, in
      the order those first occurrences appear. */
  lemma {:induction false} DedupIsFirstOccurrences<T(!new)>(xs: seq<T>)
    ensures Dedup(xs) == FirstOccurrences(xs)
    decreases |xs|
  {
    if xs != [] {
      var n := |xs| - 1;
      assert xs == xs[..n] + [xs[n]];
      AddUnseenAppend([], xs[..n], [xs[n]]);
      DedupIsFirstOccurrences(xs[..n]);
      assert [xs[n]][1..] == [];
    }
  }

  /** Every prefix of the input de-duplicates to a prefix of the whole result:
      later input never reorders what is already collected. */
  lemma DedupOfPrefix<T(!new)>(xs: seq<T>, k: nat)
    requires k <= |xs|
    ensures Dedup(xs[..k]) <= Dedup(xs)
  {
    assert xs == xs[..k] + xs[k..];
    AddUnseenAppend([], xs[..k], xs[k..]);
  }

  /** The imperative loop behind `AddUnseen`. */
  method AppendUnseen<T(==,!new)>(acc: seq<T>, xs: seq<T>) returns (r: seq<T>)
    ensures r == AddUnseen(acc, xs)
  {
    r := acc;
    for i := 0 to |xs|
      invariant AddUnseen(r, xs[i..]) == AddUnseen(acc, xs)
    {
      assert xs[i..][1..] == xs[i + 1..];
      if xs[i] !in r {
        r := r + [xs[i]];
      }
    }
    assert xs[|xs|..] == [];
  }

  /** The results `f(0)`, ..., `f(n - 1)`, in order, or `None` when any of
      them is `None`: a loop that aborts at the first failure. */
  function CollectSome<B>(n: nat, f: nat -> Option<B>): (r: Option<seq<B>>)
    ensures r.Some? ==> |r.value| == n
    decreases n
  {
    if n == 0 then Some([])
    else
      match CollectSome(n - 1, f)
      case None => None
      case Some(prev) =>
        match f(n - 1)
        case None => None
        case Some(b) => Some(prev + [b])
  }

  /** Collecting fails exactly when one step fails, and otherwise holds the
      value of every step, at its index. */
  lemma {:induction false} CollectSomeMeaning<B>(n: nat, f: nat -> Option<B>)
    ensures CollectSome(n, f).None? <==> exists i :: 0 <= i < n && f(i).None?
    ensures CollectSome(n, f).Some? ==>
      |CollectSome(n, f).value| == n && forall i :: 0 <= i < n ==> f(i) == Some(CollectSome(n, f).value[i])
    decreases n
  {
    if n > 0 {
      CollectSomeMeaning(n - 1, f);
    }
  }

  /** Once a step has failed, collecting further steps still fails. */
  lemma CollectSomeFailureIsFinal<B>(m: nat, n: nat, f: nat -> Option<B>)
    requires m <= n && CollectSome(m, f).None?
    ensures CollectSome(n, f).None?
  {
    CollectSomeMeaning(m, f);
    CollectSomeMeaning(n, f);
  }
}
