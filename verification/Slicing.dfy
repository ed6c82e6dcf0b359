/** Overlapping token windows for map-reduce summarisation. */
module Slicing {
  import opened Prelude

  /** Python's `s[lo:hi]` for lo >= 0; a negative end counts from the end. */
  function Range<T>(s: seq<T>, lo: nat, hi: int): seq<T> {
    var end := Min(if hi < 0 then Max(|s| + hi, 0) else hi, |s|);
    if lo < end then s[lo..end] else []
  }

  /** Where the windows start, from `from` on. */
  function Starts(n: nat, slice: int, step: int, from: nat): (r: seq<nat>)
    requires step > 0
    decreases n - from
  {
    if from >= n then []
    else if from + slice >= n then [from]
    else [from] + Starts(n, slice, step, from + step)
  }

  function Windows<T>(tokens: seq<T>, slice: int, starts: seq<nat>): seq<seq<T>> {
    seq(|starts|, k requires 0 <= k < |starts| => Range(tokens, starts[k], starts[k] + slice))
  }

  /** None is the error a zero step raises; a negative step makes no windows. */
  function Slices<T>(tokens: seq<T>, slice: int, overlap: int): Option<seq<seq<T>>> {
    if |tokens| <= slice then Some([tokens])
    else if slice == overlap then None
    else if slice < overlap then Some([])
    else Some(Windows(tokens, slice, Starts(|tokens|, slice, slice - overlap, 0)))
  }

  lemma {:induction false} OneMoreStart<T>(tokens: seq<T>, slice: int, step: int, done: seq<nat>, start: nat)
    requires step > 0 && start < |tokens|
    ensures Windows(tokens, slice, done + [start]) == Windows(tokens, slice, done) + [Range(tokens, start, start + slice)]
    ensures done + Starts(|tokens|, slice, step, start)
         == done + [start] + if start + slice >= |tokens| then [] else Starts(|tokens|, slice, step, start + step)
  {
    if start + slice < |tokens| {
      Regroup(done, [start], Starts(|tokens|, slice, step, start + step));
    }
  }

  method Slice<T>(tokens: seq<T>, slice: int, overlap: int) returns (r: Option<seq<seq<T>>>)
    ensures r == Slices(tokens, slice, overlap)
    ensures |tokens| <= slice ==> r == Some([tokens])
    ensures |tokens| > slice ==> (r.None? <==> slice == overlap) && (slice < overlap ==> r == Some([]))
  {
    if |tokens| <= slice {
      return Some([tokens]);
    }
    var slices: seq<seq<T>> := [];
    var step := slice - overlap;
    if step == 0 {
      return None;
    }
    if step < 0 {
      return Some([]);
    }
    ghost var done: seq<nat> := [];
    var start := 0;
    while start < |tokens|
      invariant start >= 0
      invariant done + Starts(|tokens|, slice, step, start) == Starts(|tokens|, slice, step, 0)
      invariant slices == Windows(tokens, slice, done)
      decreases |tokens| - start
    {
      OneMoreStart(tokens, slice, step, done, start);
      slices := slices + [Range(tokens, start, start + slice)];
      done := done + [start];
      if start + slice >= |tokens| {
        break;
      }
      start := start + step;
    }
    assert done == Starts(|tokens|, slice, step, 0);
    return Some(slices);
  }

  // ---- What the windows cover ---------------------------------------------

  /** The first window, then each later one without its first `overlap` tokens. */
  function Rebuilt<T>(ws: seq<seq<T>>, overlap: nat): seq<T> {
    if ws == [] then []
    else if |ws| == 1 then ws[0]
    else
      var last := ws[|ws| - 1];
      Rebuilt(ws[..|ws| - 1], overlap) + if overlap <= |last| then last[overlap..] else []
  }

  /** The k-th window falls short of the end and the next one starts a step later. */
  ghost predicate Steps(starts: seq<nat>, k: nat, n: nat, slice: int, step: int) {
    k + 1 < |starts| && starts[k + 1] == starts[k] + step && starts[k] + slice < n
  }

  ghost predicate Ladder(starts: seq<nat>, n: nat, slice: int, step: int) {
    && starts != []
    && (forall k: nat :: k < |starts| - 1 ==> Steps(starts, k, n, slice, step))
    && starts[|starts| - 1] + slice - step < n <= starts[|starts| - 1] + slice
  }

  lemma {:induction false} LadderGrows(from: nat, rest: seq<nat>, n: nat, slice: int, step: int)
    requires Ladder(rest, n, slice, step) && rest[0] == from + step && from + slice < n
    ensures Ladder([from] + rest, n, slice, step)
  {
    var r := [from] + rest;
    forall k: nat | k < |r| - 1
      ensures Steps(r, k, n, slice, step)
    {
      if k > 0 {
        assert Steps(rest, k - 1, n, slice, step);
      }
    }
  }

  lemma {:induction false} StartsShape(n: nat, slice: int, step: int, from: nat)
    requires 0 < step <= slice && from + slice - step < n
    ensures var r := Starts(n, slice, step, from);
            Ladder(r, n, slice, step) && r[0] == from
    decreases n - from
  {
    if from + slice < n {
      StartsShape(n, slice, step, from + step);
      LadderGrows(from, Starts(n, slice, step, from + step), n, slice, step);
    }
  }

  lemma NextWindow<T>(tokens: seq<T>, slice: int, overlap: nat, a: nat, b: nat)
    requires overlap < slice && b == a + slice - overlap && a + slice < |tokens| && b + overlap < |tokens|
    ensures var w := Range(tokens, b, b + slice);
            overlap <= |w| && tokens[..a + slice] + w[overlap..] == tokens[..Min(b + slice, |tokens|)]
  {
  }

  lemma {:induction false} RebuiltOneMore<T>(ws: seq<seq<T>>, w: seq<T>, overlap: nat)
    requires ws != [] && overlap <= |w|
    ensures Rebuilt(ws + [w], overlap) == Rebuilt(ws, overlap) + w[overlap..]
  {
    assert (ws + [w])[..|ws|] == ws;
  }

  lemma {:induction false} WindowsOneMore<T>(tokens: seq<T>, slice: int, starts: seq<nat>, k: nat)
    requires k < |starts|
    ensures Windows(tokens, slice, starts[..k + 1])
         == Windows(tokens, slice, starts[..k]) + [Range(tokens, starts[k], starts[k] + slice)]
  {
  }

  /** The windows rebuild everything up to where the last one ends. */
  ghost predicate RebuildsUpTo<T>(tokens: seq<T>, slice: int, overlap: nat, ws: seq<seq<T>>, last: nat) {
    ws != [] && last + slice >= 0 && Rebuilt(ws, overlap) == tokens[..Min(last + slice, |tokens|)]
  }

  lemma {:induction false} RebuildsOneMore<T>(tokens: seq<T>, slice: int, overlap: nat, ws: seq<seq<T>>, a: nat, b: nat)
    requires RebuildsUpTo(tokens, slice, overlap, ws, a)
    requires overlap < slice && b == a + slice - overlap && a + slice < |tokens| && b + overlap < |tokens|
    ensures RebuildsUpTo(tokens, slice, overlap, ws + [Range(tokens, b, b + slice)], b)
  {
    NextWindow(tokens, slice, overlap, a, b);
    RebuiltOneMore(ws, Range(tokens, b, b + slice), overlap);
  }

  lemma {:induction false} RebuildsPrefix<T>(tokens: seq<T>, slice: int, overlap: nat, starts: seq<nat>, k: nat)
    requires overlap < slice && k < |starts| && starts[0] == 0
    requires Ladder(starts, |tokens|, slice, slice - overlap)
    ensures RebuildsUpTo(tokens, slice, overlap, Windows(tokens, slice, starts[..k + 1]), starts[k])
  {
    WindowsOneMore(tokens, slice, starts, k);
    if k == 0 {
      assert Windows(tokens, slice, starts[..1]) == [Range(tokens, 0, slice)];
    } else {
      assert Steps(starts, k - 1, |tokens|, slice, slice - overlap);
      assert k < |starts| - 1 ==> Steps(starts, k, |tokens|, slice, slice - overlap);
      RebuildsPrefix(tokens, slice, overlap, starts, k - 1);
      RebuildsOneMore(tokens, slice, overlap, Windows(tokens, slice, starts[..k]), starts[k - 1], starts[k]);
    }
  }

  lemma {:induction false} WindowSizes<T>(tokens: seq<T>, slice: int, overlap: nat, starts: seq<nat>)
    requires overlap < slice && Ladder(starts, |tokens|, slice, slice - overlap)
    ensures var ws := Windows(tokens, slice, starts);
            && (forall k :: 0 <= k < |ws| - 1 ==> |ws[k]| == slice)
            && overlap < |ws[|ws| - 1]| <= slice
  {
    forall k: nat | k < |starts| - 1
      ensures |Range(tokens, starts[k], starts[k] + slice)| == slice
    {
      assert Steps(starts, k, |tokens|, slice, slice - overlap);
    }
  }

  /** For a text longer than one slice and a proper overlap: the windows rebuild
      the tokens, every window but the last is full, and the last has more than
      `overlap` tokens, so it is never a repeat of the one before. */
  lemma {:induction false} WindowsRebuildTheText<T>(tokens: seq<T>, slice: int, overlap: nat)
    requires overlap < slice < |tokens|
    ensures var ws := Slices(tokens, slice, overlap).value;
            && Rebuilt(ws, overlap) == tokens
            && |ws| >= 2
            && (forall k :: 0 <= k < |ws| - 1 ==> |ws[k]| == slice)
            && overlap < |ws[|ws| - 1]| <= slice
  {
    var starts := Starts(|tokens|, slice, slice - overlap, 0);
    var ws := Windows(tokens, slice, starts);
    assert Slices(tokens, slice, overlap) == Some(ws);
    StartsShape(|tokens|, slice, slice - overlap, 0);
    WindowSizes(tokens, slice, overlap, starts);
    RebuildsPrefix(tokens, slice, overlap, starts, |starts| - 1);
    assert starts[..|starts|] == starts && tokens[..|tokens|] == tokens;
  }

  lemma MultipleAtLeast(a: int, d: int)
    requires a >= 1 && d > 0
    ensures a * d >= d
  {
    assert a * d == (a - 1) * d + d;
  }

  lemma QuotientIsUnique(x: int, d: int, q: int, r: int)
    requires d > 0 && 0 <= r < d && x == q * d + r
    ensures x / d == q
  {
    var q', r' := x / d, x % d;
    assert x == q' * d + r' && 0 <= r' < d;
    assert (q' - q) * d == r - r' && (q - q') * d == r' - r;
    if q' > q {
      MultipleAtLeast(q' - q, d);
    } else if q' < q {
      MultipleAtLeast(q - q', d);
    }
  }

  lemma AddDivisor(a: int, d: int)
    requires d > 0
    ensures (a + d) / d == a / d + 1
  {
    assert (a / d + 1) * d == a / d * d + d;
    QuotientIsUnique(a + d, d, a / d + 1, a % d);
  }

  lemma {:induction false} StartsCount(n: nat, slice: int, step: int, from: nat)
    requires 0 < step <= slice && from + slice - step < n
    ensures |Starts(n, slice, step, from)| == 1 + (n - slice - from + step - 1) / step
    decreases n - from
  {
    var rest := n - slice - from;
    if rest <= 0 {
      QuotientIsUnique(rest + step - 1, step, 0, rest + step - 1);
    } else {
      StartsCount(n, slice, step, from + step);
      AddDivisor(rest - 1, step);
    }
  }

  /** There are 1 + ceil((n - slice) / step) windows. */
  lemma WindowCount<T>(tokens: seq<T>, slice: int, overlap: nat)
    requires overlap < slice < |tokens|
    ensures var step := slice - overlap;
            |Slices(tokens, slice, overlap).value| == 1 + (|tokens| - slice + step - 1) / step
  {
    StartsCount(|tokens|, slice, slice - overlap, 0);
  }

  ghost predicate Covered(starts: seq<nat>, slice: int, i: nat) {
    exists k :: 0 <= k < |starts| && starts[k] <= i < starts[k] + slice
  }

  lemma {:induction false} SparseStarts(n: nat, slice: int, step: int, from: nat)
    requires step > 0
    ensures forall k :: 0 <= k < |Starts(n, slice, step, from)| ==>
              Starts(n, slice, step, from)[k] == from || Starts(n, slice, step, from)[k] >= from + step
    decreases n - from
  {
    if from < n && from + slice < n {
      SparseStarts(n, slice, step, from + step);
    }
  }

  /** Nothing checks the overlap. Given a step forward, every token of a longer
      text falls in some window if and only if the overlap is not negative. */
  lemma EveryTokenCoveredIff(n: nat, slice: int, overlap: int)
    requires 1 <= slice < n && overlap < slice
    ensures var starts := Starts(n, slice, slice - overlap, 0);
            (forall i: nat :: i < n ==> Covered(starts, slice, i)) <==> overlap >= 0
  {
    var step := slice - overlap;
    var starts := Starts(n, slice, step, 0);
    if overlap >= 0 {
      StartsShape(n, slice, step, 0);
      forall i: nat | i < n
        ensures Covered(starts, slice, i)
      {
        CoveredUpTo(starts, n, slice, step, |starts| - 1, i);
      }
    } else {
      SparseStarts(n, slice, step, 0);
      assert !Covered(starts, slice, slice);
    }
  }

  lemma {:induction false} CoveredUpTo(starts: seq<nat>, n: nat, slice: int, step: int, k: nat, i: nat)
    requires k < |starts| && starts[0] == 0 && 0 < step <= slice && i < starts[k] + slice
    requires Ladder(starts, n, slice, step)
    ensures Covered(starts, slice, i)
  {
    if i < starts[k] {
      assert Steps(starts, k - 1, n, slice, step);
      CoveredUpTo(starts, n, slice, step, k - 1, i);
    }
  }
}
