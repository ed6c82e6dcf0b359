/** Percentiles and usage totals over the gateway's request rows. */
module GatewayStats {
  import opened Prelude

  // ---- Percentiles --------------------------------------------------------

  predicate Sorted(s: seq<real>) {
    forall i, j :: 0 <= i < j < |s| ==> s[i] <= s[j]
  }

  function InsertSorted(s: seq<real>, x: real): (r: seq<real>)
    requires Sorted(s)
    ensures Sorted(r) && |r| == |s| + 1
    ensures forall y :: y in r <==> y in s || y == x
    ensures r[0] == if s == [] || x <= s[0] then x else s[0]
  {
    if s == [] then [x]
    else if x <= s[0] then [x] + s
    else
      [s[0]] + InsertSorted(s[1..], x)
  }

  lemma {:induction false} InsertKeepsAll(s: seq<real>, x: real)
    requires Sorted(s)
    ensures multiset(InsertSorted(s, x)) == multiset(s) + multiset{x}
  {
    if s != [] && s[0] < x {
      assert s == [s[0]] + s[1..];
      InsertKeepsAll(s[1..], x);
    }
  }

  function Sort(s: seq<real>): (r: seq<real>)
    ensures Sorted(r) && multiset(r) == multiset(s) && |r| == |s|
    ensures forall y :: y in r <==> y in s
  {
    if s == [] then []
    else
      var front, last := s[..|s| - 1], s[|s| - 1];
      assert s == front + [last];
      InsertKeepsAll(Sort(front), last);
      InsertSorted(Sort(front), last)
  }

  /** Round half to even, as a whole number and then to two places. */
  function RoundEven(x: real): int {
    var f := x.Floor;
    var d := x - f as real;
    if d < 0.5 || (d == 0.5 && f % 2 == 0) then f else f + 1
  }

  function Round2(x: real): real {
    RoundEven(x * 100.0) as real / 100.0
  }

  /** The value at fractional position k of sorted values. */
  function Interpolate(ordered: seq<real>, k: real): real
    requires ordered != [] && 0.0 <= k <= (|ordered| - 1) as real
  {
    var lo := k.Floor;
    var hi := Min(lo + 1, |ordered| - 1);
    ordered[lo] + (ordered[hi] - ordered[lo]) * (k - lo as real)
  }

  /** Where p falls among positions 0 to `last`. */
  function Position(last: real, p: real): (k: real)
    requires last >= 0.0 && 0.0 <= p <= 1.0
    ensures 0.0 <= k <= last
  {
    ScaleBounds(last, p);
    last * p
  }

  function RawPercentile(values: seq<real>, p: real): real
    requires values != [] && 0.0 <= p <= 1.0
  {
    Interpolate(Sort(values), Position((|values| - 1) as real, p))
  }

  function Percentile(values: seq<real>, p: real): Option<real>
    requires 0.0 <= p <= 1.0
  {
    if values == [] then None
    else if |values| == 1 then Some(Round2(Sort(values)[0]))
    else Some(Round2(RawPercentile(values, p)))
  }

  lemma ScaleBounds(a: real, p: real)
    requires a >= 0.0 && 0.0 <= p <= 1.0
    ensures 0.0 <= a * p <= a
  {
    assert a * (1.0 - p) >= 0.0;
  }

  lemma Monotone(a: real, x: real, y: real)
    requires a >= 0.0 && x <= y
    ensures a * x <= a * y
  {
    assert a * (y - x) >= 0.0;
  }

  lemma {:induction false} SortIgnoresOrder(a: seq<real>, b: seq<real>)
    requires multiset(a) == multiset(b)
    ensures Sort(a) == Sort(b)
  {
    assert |a| == |multiset(a)| == |multiset(b)| == |b|;
    SortedIsUnique(Sort(a), Sort(b));
  }

  lemma SameLast(a: seq<real>, b: seq<real>)
    requires a != [] && |a| == |b| && Sorted(a) && Sorted(b) && multiset(a) == multiset(b)
    ensures a[|a| - 1] == b[|b| - 1]
  {
    var n := |a| - 1;
    assert a[n] in multiset(b) && b[n] in multiset(a);
    var i :| 0 <= i < |b| && b[i] == a[n];
    var j :| 0 <= j < |a| && a[j] == b[n];
    assert b[i] <= b[n] && a[j] <= a[n];
  }

  lemma {:induction false} SortedIsUnique(a: seq<real>, b: seq<real>)
    requires |a| == |b| && Sorted(a) && Sorted(b) && multiset(a) == multiset(b)
    ensures a == b
  {
    if a != [] {
      var a', b' := a[..|a| - 1], b[..|b| - 1];
      SameLast(a, b);
      assert multiset(a') == multiset(b') by {
        MultisetFront(a);
        MultisetFront(b);
      }
      SortedIsUnique(a', b');
    }
  }

  /** An interpolated value lies between the two entries around it. */
  lemma InterpolateBetween(s: seq<real>, k: real)
    requires s != [] && Sorted(s) && 0.0 <= k <= (|s| - 1) as real
    ensures s[k.Floor] <= Interpolate(s, k) <= s[Min(k.Floor + 1, |s| - 1)]
  {
    var lo, hi := k.Floor, Min(k.Floor + 1, |s| - 1);
    var d, t := s[hi] - s[lo], k - lo as real;
    ScaleBounds(d, t);
    assert Interpolate(s, k) == s[lo] + d * t;
  }

  lemma InterpolateWithin(s: seq<real>, k: real, k': real)
    requires s != [] && Sorted(s) && 0.0 <= k <= k' <= (|s| - 1) as real && k.Floor == k'.Floor
    ensures Interpolate(s, k) <= Interpolate(s, k')
  {
    var lo := k.Floor;
    var d, t, t' := s[Min(lo + 1, |s| - 1)] - s[lo], k - lo as real, k' - lo as real;
    Monotone(d, t, t');
    var x, y := d * t, d * t';
    assert Interpolate(s, k) == s[lo] + x && Interpolate(s, k') == s[lo] + y;
  }

  lemma InterpolateMonotone(s: seq<real>, k: real, k': real)
    requires s != [] && Sorted(s) && 0.0 <= k <= k' <= (|s| - 1) as real
    ensures Interpolate(s, k) <= Interpolate(s, k')
  {
    var lo, lo' := k.Floor, k'.Floor;
    if lo == lo' {
      InterpolateWithin(s, k, k');
    } else {
      InterpolateBetween(s, k);
      InterpolateBetween(s, k');
      assert lo + 1 <= lo';
    }
  }

  lemma RoundMonotone(x: real, y: real)
    requires x <= y
    ensures Round2(x) <= Round2(y)
  {
    assert RoundEven(x * 100.0) <= RoundEven(y * 100.0);
  }

  /** The percentile does not depend on the order of the values. */
  lemma {:induction false} PercentileIsOrderFree(a: seq<real>, b: seq<real>, p: real)
    requires multiset(a) == multiset(b) && 0.0 <= p <= 1.0
    ensures Percentile(a, p) == Percentile(b, p)
  {
    SortIgnoresOrder(a, b);
    assert |a| == |multiset(a)| == |multiset(b)| == |b|;
  }

  /** Before rounding it lies within any bounds the values lie within. */
  lemma {:induction false} PercentileWithinRange(values: seq<real>, p: real, lo: real, hi: real)
    requires values != [] && 0.0 <= p <= 1.0 && forall v :: v in values ==> lo <= v <= hi
    ensures lo <= RawPercentile(values, p) <= hi
  {
    var s, k := Sort(values), Position((|values| - 1) as real, p);
    InterpolateBetween(s, k);
    assert s[k.Floor] in s && s[Min(k.Floor + 1, |s| - 1)] in s;
  }

  lemma PositionMonotone(last: real, p: real, q: real)
    requires last >= 0.0 && 0.0 <= p <= q <= 1.0
    ensures Position(last, p) <= Position(last, q)
  {
    var k := Position(last, p);
    assert k == last * p;
    Monotone(last, p, q);
    assert k <= last * q == Position(last, q);
  }

  /** Percentiles grow with p, before and after rounding: p50 never exceeds p95. */
  lemma {:induction false} PercentileMonotone(values: seq<real>, p: real, q: real)
    requires values != [] && 0.0 <= p <= q <= 1.0
    ensures RawPercentile(values, p) <= RawPercentile(values, q)
    ensures Percentile(values, p).value <= Percentile(values, q).value
  {
    var s, k, k' := Sort(values), Position((|values| - 1) as real, p), Position((|values| - 1) as real, q);
    PositionMonotone((|values| - 1) as real, p, q);
    InterpolateMonotone(s, k, k');
    RoundMonotone(RawPercentile(values, p), RawPercentile(values, q));
  }

  /** `r` is x to two places: the nearest hundredth, the even one of two. */
  ghost predicate IsHundredthOf(r: real, x: real) {
    exists m :: IsCents(r, x, m)
  }

  ghost predicate IsCents(r: real, x: real, m: int) {
    r == m as real / 100.0 && IsNearest(m, x * 100.0)
  }

  ghost predicate IsNearest(m: int, x: real) {
    && m as real - 0.5 <= x <= m as real + 0.5
    && (x == m as real - 0.5 || x == m as real + 0.5 ==> m % 2 == 0)
  }

  lemma RoundsToNearest(x: real)
    ensures IsNearest(RoundEven(x), x)
  {
  }

  lemma RoundsToHundredth(x: real)
    ensures IsHundredthOf(Round2(x), x)
  {
    var hundred := x * 100.0;
    var m := RoundEven(hundred);
    RoundsToNearest(hundred);
    assert IsCents(Round2(x), x, m);
  }

  /** `x` lies on the line from entry i to the next, at position k; the last entry
      stands alone. */
  ghost predicate OnTheLine(x: real, ordered: seq<real>, k: real, i: nat)
    requires i < |ordered|
  {
    if i + 1 < |ordered| then x - ordered[i] == (ordered[i + 1] - ordered[i]) * (k - i as real) else x == ordered[i]
  }

  lemma {:induction false} InterpolatesAt(ordered: seq<real>, k: real, i: nat)
    requires i < |ordered| && i as real <= k < i as real + 1.0 && k <= (|ordered| - 1) as real
    ensures OnTheLine(Interpolate(ordered, k), ordered, k, i)
  {
    assert k.Floor == i;
    if i + 1 == |ordered| {
      var d := ordered[i] - ordered[i];
      assert d == 0.0 && Interpolate(ordered, k) == ordered[i] + d * (k - i as real);
    }
  }

  lemma {:induction false} RawIsOnTheLine(values: seq<real>, ordered: seq<real>, p: real, k: real, i: nat)
    requires 0.0 <= p <= 1.0 && i < |ordered| && multiset(ordered) == multiset(values) && Sorted(ordered)
    requires k == Position((|ordered| - 1) as real, p) && i as real <= k < i as real + 1.0
    ensures values != [] && OnTheLine(RawPercentile(values, p), ordered, k, i)
  {
    assert |values| == |multiset(values)| == |multiset(ordered)| == |ordered|;
    SortedIsUnique(Sort(values), ordered);
    InterpolatesAt(ordered, k, i);
  }

  lemma {:induction false} OneValue(values: seq<real>, p: real)
    requires |values| == 1 && 0.0 <= p <= 1.0
    ensures RawPercentile(values, p) == Sort(values)[0]
  {
    var k := Position(0.0, p);
    InterpolatesAt(Sort(values), k, 0);
  }

  lemma {:induction false} PercentileRounds(values: seq<real>, p: real)
    requires values != [] && 0.0 <= p <= 1.0
    ensures Percentile(values, p) == Some(Round2(RawPercentile(values, p)))
  {
    if |values| == 1 {
      OneValue(values, p);
    }
  }

  /** Some value on the line is `r` when rounded. */
  ghost predicate ReadsOff(r: Option<real>, ordered: seq<real>, k: real, i: nat)
    requires i < |ordered|
  {
    r.Some? && exists x :: OnTheLine(x, ordered, k, i) && IsHundredthOf(r.value, x)
  }

  /** The percentile of n values, in ascending order `ordered`: k = (n - 1) * p falls
      between entry i and the next, and the value there, on the straight line between
      them, is given to the nearest hundredth. No values have none. */
  lemma {:induction false} PercentileIsOnTheLine(values: seq<real>, ordered: seq<real>, p: real, k: real, i: nat)
    requires 0.0 <= p <= 1.0 && i < |ordered| && multiset(ordered) == multiset(values) && Sorted(ordered)
    requires k == (|ordered| - 1) as real * p && i as real <= k < i as real + 1.0
    ensures ReadsOff(Percentile(values, p), ordered, k, i) && Percentile([], p) == None
  {
    var last := (|ordered| - 1) as real;
    assert k == Position(last, p);
    RawIsOnTheLine(values, ordered, p, k, i);
    PercentileRounds(values, p);
    RoundsToHundredth(RawPercentile(values, p));
    ReadOff(RawPercentile(values, p), Percentile(values, p), ordered, k, i);
  }

  lemma ReadOff(x: real, r: Option<real>, ordered: seq<real>, k: real, i: nat)
    requires i < |ordered| && OnTheLine(x, ordered, k, i) && r.Some? && IsHundredthOf(r.value, x)
    ensures ReadsOff(r, ordered, k, i)
  {
  }

  // ---- Rows ---------------------------------------------------------------

  datatype Row = Row(purpose: string, status: string, tokens: Option<int>, cost: Option<real>, latency: Option<real>)

  datatype Usage = Usage(requests: nat, ok: nat, errors: nat, denied: nat, tokens: int, cost: real,
                         byPurpose: map<string, nat>)

  datatype LatencyStats = LatencyStats(count: nat, p50: Option<real>, p95: Option<real>, errors: nat)

  predicate IsDenied(r: Row) { r.status == "quota_denied" }

  predicate IsError(r: Row) { r.status == "error" }

  datatype Kind = Succeeded | Errored | Denied

  function KindOf(r: Row): Kind {
    if IsDenied(r) then Denied else if IsError(r) then Errored else Succeeded
  }

  ghost function KindCount(rows: seq<Row>, kind: Kind): nat {
    if rows == [] then 0
    else KindCount(rows[..|rows| - 1], kind) + if KindOf(rows[|rows| - 1]) == kind then 1 else 0
  }

  ghost function PurposeCount(rows: seq<Row>, purpose: string): nat {
    if rows == [] then 0
    else PurposeCount(rows[..|rows| - 1], purpose) + if rows[|rows| - 1].purpose == purpose then 1 else 0
  }

  ghost function Spent(rows: seq<Row>): (int, real) {
    if rows == [] then (0, 0.0)
    else
      var (t, c) := Spent(rows[..|rows| - 1]);
      var r := rows[|rows| - 1];
      if IsDenied(r) then (t, c) else (t + r.tokens.GetOr(0), c + r.cost.GetOr(0.0))
  }

  function Attempts(rows: seq<Row>): seq<Row> {
    if rows == [] then []
    else Attempts(rows[..|rows| - 1]) + if IsDenied(rows[|rows| - 1]) then [] else [rows[|rows| - 1]]
  }

  function Latencies(rows: seq<Row>): seq<real> {
    if rows == [] then []
    else
      var last := rows[|rows| - 1];
      Latencies(rows[..|rows| - 1]) + if last.latency.Some? then [last.latency.value] else []
  }

  function Errors(rows: seq<Row>): nat {
    if rows == [] then 0 else Errors(rows[..|rows| - 1]) + if IsError(rows[|rows| - 1]) then 1 else 0
  }

  ghost predicate Tallies(rows: seq<Row>, ok: nat, errors: nat, denied: nat, tokens: int, cost: real,
                          byPurpose: map<string, nat>) {
    && ok == KindCount(rows, Succeeded)
    && errors == KindCount(rows, Errored)
    && denied == KindCount(rows, Denied)
    && (tokens, cost) == Spent(rows)
    && (forall p :: p in byPurpose ==> byPurpose[p] > 0)
    && (forall p :: (if p in byPurpose then byPurpose[p] else 0) == PurposeCount(rows, p))
  }

  ghost function Statuses(rows: seq<Row>): (r: seq<string>)
    ensures |r| == |rows| && forall i :: 0 <= i < |rows| ==> r[i] == rows[i].status
  {
    seq(|rows|, i requires 0 <= i < |rows| => rows[i].status)
  }

  ghost function Purposes(rows: seq<Row>): (r: seq<string>)
    ensures |r| == |rows| && forall i :: 0 <= i < |rows| ==> r[i] == rows[i].purpose
  {
    seq(|rows|, i requires 0 <= i < |rows| => rows[i].purpose)
  }

  lemma {:induction false} KindsAreStatuses(rows: seq<Row>)
    ensures var n := multiset(Statuses(rows));
            && KindCount(rows, Denied) == n["quota_denied"]
            && KindCount(rows, Errored) == n["error"]
            && KindCount(rows, Succeeded) == |rows| - n["quota_denied"] - n["error"]
  {
    if rows != [] {
      var front, last := rows[..|rows| - 1], rows[|rows| - 1];
      KindsAreStatuses(front);
      assert Statuses(rows) == Statuses(front) + [last.status];
    }
  }

  lemma {:induction false} PurposesAreCounted(rows: seq<Row>, purpose: string)
    ensures PurposeCount(rows, purpose) == multiset(Purposes(rows))[purpose]
  {
    if rows != [] {
      var front, last := rows[..|rows| - 1], rows[|rows| - 1];
      PurposesAreCounted(front, purpose);
      assert Purposes(rows) == Purposes(front) + [last.purpose];
    }
  }

  lemma {:induction false} SpentInTwo(a: seq<Row>, b: seq<Row>)
    ensures Spent(a + b).0 == Spent(a).0 + Spent(b).0 && Spent(a + b).1 == Spent(a).1 + Spent(b).1
  {
    if b == [] {
      Nothing(a);
    } else {
      var front, last := b[..|b| - 1], b[|b| - 1];
      SpentInTwo(a, front);
      assert (a + b)[..|a + b| - 1] == a + front && (a + b)[|a + b| - 1] == last;
    }
  }

  /** What is spent adds up over any split of the rows; one row spends its tokens and
      its cost, 0 for what it lacks, and nothing at all when it was denied. */
  lemma {:induction false} SpendAddsUp(a: seq<Row>, r: Row)
    ensures Spent([]) == (0, 0.0)
    ensures forall b :: Spent(a + b).0 == Spent(a).0 + Spent(b).0 && Spent(a + b).1 == Spent(a).1 + Spent(b).1
    ensures r.status == "quota_denied" ==> Spent([r]) == (0, 0.0)
    ensures r.status != "quota_denied" ==> Spent([r]).0 == if r.tokens.Some? then r.tokens.value else 0
    ensures r.status != "quota_denied" ==> Spent([r]).1 == if r.cost.Some? then r.cost.value else 0.0
  {
    forall b
      ensures Spent(a + b).0 == Spent(a).0 + Spent(b).0 && Spent(a + b).1 == Spent(a).1 + Spent(b).1
    {
      SpentInTwo(a, b);
    }
    assert [r][..0] == [];
  }

  /** The counters by status and by purpose, read off the rows. */
  ghost predicate Counts(rows: seq<Row>, u: Usage) {
    var statuses, purposes := multiset(Statuses(rows)), multiset(Purposes(rows));
    && u.denied == statuses["quota_denied"] && u.errors == statuses["error"]
    && u.requests == u.ok + u.errors == |rows| - u.denied
    && (forall p :: p in u.byPurpose <==> p in purposes)
    && (forall p :: p in u.byPurpose ==> u.byPurpose[p] == purposes[p])
  }

  lemma {:induction false} TalliesCount(rows: seq<Row>, u: Usage)
    requires Tallies(rows, u.ok, u.errors, u.denied, u.tokens, u.cost, u.byPurpose) && u.requests == u.ok + u.errors
    ensures Counts(rows, u)
  {
    KindsAreStatuses(rows);
    forall p
      ensures p in u.byPurpose <==> p in multiset(Purposes(rows))
      ensures p in u.byPurpose ==> u.byPurpose[p] == multiset(Purposes(rows))[p]
    {
      PurposesAreCounted(rows, p);
    }
  }

  method SummarizeUsage(rows: seq<Row>) returns (u: Usage)
    ensures Tallies(rows, u.ok, u.errors, u.denied, u.tokens, u.cost, u.byPurpose)
    ensures u.requests == u.ok + u.errors
    ensures Counts(rows, u) && (u.tokens, u.cost) == Spent(rows)
  {
    var ok, errors, denied, tokens, cost := 0, 0, 0, 0, 0.0;
    var byPurpose: map<string, nat> := map[];
    for i := 0 to |rows|
      invariant Tallies(rows[..i], ok, errors, denied, tokens, cost, byPurpose)
    {
      var r := rows[i];
      assert rows[..i + 1][..i] == rows[..i];
      byPurpose := byPurpose[r.purpose := (if r.purpose in byPurpose then byPurpose[r.purpose] else 0) + 1];
      if r.status == "quota_denied" {
        denied := denied + 1;
        continue;
      }
      if r.status == "error" {
        errors := errors + 1;
      } else {
        ok := ok + 1;
      }
      tokens := tokens + r.tokens.GetOr(0);
      cost := cost + r.cost.GetOr(0.0);
    }
    assert rows[..|rows|] == rows;
    u := Usage(ok + errors, ok, errors, denied, tokens, cost, byPurpose);
    TalliesCount(rows, u);
  }

  function RequestStats(rows: seq<Row>): LatencyStats {
    var attempts := Attempts(rows);
    var latencies := Latencies(attempts);
    LatencyStats(|attempts|, Percentile(latencies, 0.5), Percentile(latencies, 0.95), Errors(attempts))
  }

  /** The rows whose latency counts: those not denied that have one. */
  ghost function Timed(rows: seq<Row>): set<nat> {
    set i: nat | i < |rows| && rows[i].status != "quota_denied" && rows[i].latency.Some?
  }

  ghost function Measured(rows: seq<Row>): seq<real> {
    seq(|rows|, i requires 0 <= i < |rows| => rows[i].latency.GetOr(0.0))
  }

  lemma {:induction false} TimedOneMore(front: seq<Row>, last: Row)
    ensures |Measured(front)| == |front| && Measured(front + [last]) == Measured(front) + [last.latency.GetOr(0.0)]
    ensures Timed(front + [last])
         == Timed(front) + if last.status != "quota_denied" && last.latency.Some? then {|front|} else {}
  {
  }

  lemma {:induction false} LatenciesOneMore(front: seq<Row>, last: Row)
    ensures Latencies(Attempts(front + [last])) == Latencies(Attempts(front))
          + if last.status != "quota_denied" && last.latency.Some? then [last.latency.GetOr(0.0)] else []
  {
    assert (front + [last])[..|front|] == front;
    if IsDenied(last) {
      Nothing(Attempts(front));
      Nothing(Latencies(Attempts(front)));
    } else {
      assert (Attempts(front) + [last])[..|Attempts(front)|] == Attempts(front);
    }
  }

  lemma {:induction false} LatenciesSelect(rows: seq<Row>)
    ensures Selection(Latencies(Attempts(rows)), Measured(rows), Timed(rows))
  {
    if rows == [] {
      SelectNothing<real>();
      assert Timed(rows) == {} && Measured(rows) == [];
    } else {
      var front, last := rows[..|rows| - 1], rows[|rows| - 1];
      LatenciesSelect(front);
      Rejoin(rows);
      TimedOneMore(front, last);
      LatenciesOneMore(front, last);
      SelectNext(Latencies(Attempts(front)), Measured(front), Timed(front), last.latency.GetOr(0.0),
                 last.status != "quota_denied" && last.latency.Some?);
    }
  }

  /** Both percentiles are of the latencies of the rows that were not denied and have
      one, and no others: the median and the 95th. */
  lemma {:induction false} RequestStatsMeasure(rows: seq<Row>, latencies: seq<real>)
    requires Selection(latencies, Measured(rows), Timed(rows))
    ensures RequestStats(rows).p50 == Percentile(latencies, 0.5)
    ensures RequestStats(rows).p95 == Percentile(latencies, 0.95)
  {
    LatenciesSelect(rows);
    SelectionIsUnique(latencies, Latencies(Attempts(rows)), Measured(rows), Timed(rows));
  }

  lemma {:induction false} RowsPartition(rows: seq<Row>)
    ensures KindCount(rows, Succeeded) + KindCount(rows, Errored) + KindCount(rows, Denied) == |rows|
    ensures |Attempts(rows)| == |rows| - KindCount(rows, Denied)
    ensures Errors(Attempts(rows)) == KindCount(rows, Errored)
  {
    if rows != [] {
      var front, last := rows[..|rows| - 1], rows[|rows| - 1];
      RowsPartition(front);
      if !IsDenied(last) {
        var all := Attempts(rows);
        assert all == Attempts(front) + [last] && all[..|all| - 1] == Attempts(front) && all[|all| - 1] == last;
        assert Errors(all) == Errors(Attempts(front)) + if IsError(last) then 1 else 0;
      } else {
        assert Attempts(rows) == Attempts(front);
      }
    }
  }

  ghost function PurposeCounts(rows: seq<Row>): map<string, nat> {
    if rows == [] then map[] else Bump(PurposeCounts(rows[..|rows| - 1]), rows[|rows| - 1].purpose)
  }

  lemma {:induction false} PurposeCountsAre(rows: seq<Row>, p: string)
    ensures var m := PurposeCounts(rows);
            && (if p in m then m[p] else 0) == PurposeCount(rows, p)
            && (p in m ==> m[p] > 0)
  {
    if rows != [] {
      PurposeCountsAre(rows[..|rows| - 1], p);
    }
  }

  lemma {:induction false} PurposeCountsSum(rows: seq<Row>)
    ensures Total(PurposeCounts(rows)) == |rows|
  {
    if rows != [] {
      PurposeCountsSum(rows[..|rows| - 1]);
      BumpAddsOne(PurposeCounts(rows[..|rows| - 1]), rows[|rows| - 1].purpose);
    }
  }

  /** The two dashboards agree on the same rows: ok, errors and denied partition
      them, purposes sum to them, and the latency count is the request count. */
  lemma DashboardsAgree(rows: seq<Row>, u: Usage)
    requires Tallies(rows, u.ok, u.errors, u.denied, u.tokens, u.cost, u.byPurpose) && u.requests == u.ok + u.errors
    ensures u.ok + u.errors + u.denied == |rows|
    ensures Total(u.byPurpose) == |rows|
    ensures RequestStats(rows).count == u.requests && RequestStats(rows).errors == u.errors
  {
    RowsPartition(rows);
    PurposeCountsSum(rows);
    forall p
      ensures p in u.byPurpose <==> p in PurposeCounts(rows)
      ensures p in u.byPurpose ==> u.byPurpose[p] == PurposeCounts(rows)[p]
    {
      PurposeCountsAre(rows, p);
    }
    assert u.byPurpose == PurposeCounts(rows);
  }
}
