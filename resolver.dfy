/**
 * The priority-list scan the scraper repeats for every field: walk an
 * ordered list (selectors, lines of text, polls of a page) and stop at the
 * first entry that passes a guard. Later entries are never consulted.
 */
module Resolver {
  import opened Wrappers

  /** Index of the first entry of `xs` accepted by `ok`, if any. */
  function FirstAccepted<T>(xs: seq<T>, ok: T -> bool): (r: Option<nat>)
    ensures r.Some? ==> r.value < |xs| && ok(xs[r.value])
    ensures r.Some? ==> forall j :: 0 <= j < r.value ==> !ok(xs[j])
    ensures r.None? <==> forall j :: 0 <= j < |xs| ==> !ok(xs[j])
  {
    if |xs| == 0 then None
    else if ok(xs[0]) then Some(0)
    else match FirstAccepted(xs[1..], ok)
      case None => None
      case Some(k) => Some(k + 1)
  }

  /** The `for ...: if ...: break` loop itself. */
  method Scan<T>(xs: seq<T>, ok: T -> bool) returns (r: Option<nat>)
    ensures r == FirstAccepted(xs, ok)
  {
    var i := 0;
    while i < |xs|
      invariant 0 <= i <= |xs|
      invariant forall j :: 0 <= j < i ==> !ok(xs[j])
    {
      if ok(xs[i]) {
        return Some(i);
      }
      i := i + 1;
    }
    return None;
  }

  /**
   * The result is decided by the entries up to and including the one chosen:
   * a list whose entries agree with `xs` on that prefix, whatever follows,
   * resolves to the same index; and a list in which nothing passes resolves
   * to whatever its extension resolves to, shifted.
   */
  lemma {:induction false} FirstAcceptedPrefix<T>(xs: seq<T>, ys: seq<T>, ok: T -> bool)
    ensures FirstAccepted(xs, ok).Some? ==> FirstAccepted(xs + ys, ok) == FirstAccepted(xs, ok)
    ensures FirstAccepted(xs, ok).None? ==>
      FirstAccepted(xs + ys, ok) == match FirstAccepted(ys, ok)
                                    case None => None
                                    case Some(k) => Some(|xs| + k)
  {
    if |xs| > 0 {
      assert (xs + ys)[0] == xs[0];
      assert (xs + ys)[1..] == xs[1..] + ys;
      FirstAcceptedPrefix(xs[1..], ys, ok);
    } else {
      assert xs + ys == ys;
    }
  }

  /** The entries of `xs` that `ok` accepts, each passed through `f`, in order. */
  function Picked<T, U>(xs: seq<T>, ok: T -> bool, f: T -> U): (r: seq<U>)
    ensures |r| <= |xs|
  {
    if |xs| == 0 then []
    else Picked(xs[..|xs| - 1], ok, f) + if ok(xs[|xs| - 1]) then [f(xs[|xs| - 1])] else []
  }

  /** At most the first `limit` entries of `q`. */
  function Head<U>(q: seq<U>, limit: nat): (r: seq<U>)
    ensures |r| <= limit && |r| <= |q| && r == q[..|r|]
    ensures |r| < limit ==> r == q
  {
    if |q| <= limit then q else q[..limit]
  }

  /** What is picked from a prefix of `xs` is the head of what is picked from all of `xs`. */
  lemma {:induction false} PickedPrefix<T, U>(xs: seq<T>, ok: T -> bool, f: T -> U, n: nat)
    requires n <= |xs|
    ensures var p := Picked(xs[..n], ok, f);
            |p| <= |Picked(xs, ok, f)| && Picked(xs, ok, f)[..|p|] == p
    decreases |xs|
  {
    if n < |xs| {
      var init := xs[..|xs| - 1];
      assert init[..n] == xs[..n];
      PickedPrefix(init, ok, f, n);
    } else {
      assert xs[..n] == xs;
    }
  }

  /** Extending the prefix by one entry appends that entry's image when it is accepted. */
  lemma PickedNext<T, U>(xs: seq<T>, ok: T -> bool, f: T -> U, i: nat)
    requires i < |xs|
    ensures Picked(xs[..i + 1], ok, f) == Picked(xs[..i], ok, f) + if ok(xs[i]) then [f(xs[i])] else []
  {
    assert xs[..i + 1][..i] == xs[..i];
  }

  /** Picked entries are exactly the images of accepted entries. */
  lemma {:induction false} PickedMembers<T, U>(xs: seq<T>, ok: T -> bool, f: T -> U)
    ensures forall u :: u in Picked(xs, ok, f) <==> exists j :: 0 <= j < |xs| && ok(xs[j]) && u == f(xs[j])
  {
    if |xs| > 0 {
      var init := xs[..|xs| - 1];
      PickedMembers(init, ok, f);
      assert forall j :: 0 <= j < |init| ==> init[j] == xs[j];
    }
  }

  /** The `for ...: if ...: append; if len(...) >= limit: break` loop. */
  method Collect<T, U>(xs: seq<T>, ok: T -> bool, f: T -> U, limit: nat) returns (r: seq<U>)
    requires limit > 0
    ensures r == Head(Picked(xs, ok, f), limit)
  {
    r := [];
    var i := 0;
    while i < |xs|
      invariant 0 <= i <= |xs|
      invariant r == Picked(xs[..i], ok, f)
      invariant |r| < limit
    {
      assert xs[..i + 1][..i] == xs[..i];
      if ok(xs[i]) {
        r := r + [f(xs[i])];
        if |r| >= limit {
          PickedPrefix(xs, ok, f, i + 1);
          return;
        }
      }
      i := i + 1;
    }
    assert xs[..i] == xs;
  }

  /** The indices of the entries of `xs` that `ok` accepts, in increasing order. */
  function PickedIndices<T>(xs: seq<T>, ok: T -> bool): (idx: seq<nat>)
    ensures |idx| <= |xs|
    ensures forall k :: 0 <= k < |idx| ==> idx[k] < |xs| && ok(xs[idx[k]])
    ensures forall a, b :: 0 <= a < b < |idx| ==> idx[a] < idx[b]
    ensures forall i :: 0 <= i < |xs| && ok(xs[i]) ==> i in idx
  {
    if |xs| == 0 then []
    else
      var init := xs[..|xs| - 1];
      var idx := PickedIndices(init, ok);
      assert forall i :: 0 <= i < |init| ==> init[i] == xs[i];
      idx + if ok(xs[|xs| - 1]) then [|xs| - 1] else []
  }

  /** The k-th picked entry is the image of the k-th accepted entry. */
  lemma {:induction false} PickedAt<T, U>(xs: seq<T>, ok: T -> bool, f: T -> U)
    ensures |Picked(xs, ok, f)| == |PickedIndices(xs, ok)|
    ensures forall k :: 0 <= k < |PickedIndices(xs, ok)| ==>
                        Picked(xs, ok, f)[k] == f(xs[PickedIndices(xs, ok)[k]])
  {
    if |xs| > 0 {
      var init := xs[..|xs| - 1];
      PickedAt(init, ok, f);
      assert forall i :: 0 <= i < |init| ==> init[i] == xs[i];
    }
  }
}
