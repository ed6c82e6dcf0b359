/** Rule-pack verdicts rolled up into counts, a score and a traffic light. */
module VerdictAggregation {
  import opened Prelude

  datatype Light = Red | Amber | Green

  datatype Verdict = Applies(light: Light) | NotApplicable

  datatype Finding = Finding(verdict: Verdict, must: bool)

  datatype Counts = Counts(green: nat, amber: nat, red: nat, na: nat)

  function Count(results: seq<Finding>, v: Verdict): nat {
    if results == [] then 0
    else Count(results[..|results| - 1], v) + if results[|results| - 1].verdict == v then 1 else 0
  }

  function Tally(results: seq<Finding>): Counts {
    Counts(Count(results, Applies(Green)), Count(results, Applies(Amber)), Count(results, Applies(Red)),
           Count(results, NotApplicable))
  }

  predicate HasMustRed(results: seq<Finding>) {
    exists i :: 0 <= i < |results| && results[i] == Finding(Applies(Red), true)
  }

  function Applicable(c: Counts): nat {
    c.green + c.amber + c.red
  }

  function Score(c: Counts): real {
    if Applicable(c) > 0 then c.green as real / Applicable(c) as real else 0.0
  }

  function LightFor(mustRed: bool, score: real): Light {
    if mustRed then Red else if score >= 0.7 then Green else if score >= 0.4 then Amber else Red
  }

  function Overall(results: seq<Finding>): Light {
    LightFor(HasMustRed(results), Score(Tally(results)))
  }

  ghost function Verdicts(results: seq<Finding>): (vs: seq<Verdict>)
    ensures |vs| == |results| && forall i :: 0 <= i < |results| ==> vs[i] == results[i].verdict
  {
    seq(|results|, i requires 0 <= i < |results| => results[i].verdict)
  }

  lemma {:induction false} CountIsMultiplicity(results: seq<Finding>, v: Verdict)
    ensures Count(results, v) == multiset(Verdicts(results))[v]
  {
    if results != [] {
      var front, last := results[..|results| - 1], results[|results| - 1];
      CountIsMultiplicity(front, v);
      assert Verdicts(results) == Verdicts(front) + [last.verdict];
    }
  }

  ghost predicate CountsVerdicts(c: Counts, verdicts: multiset<Verdict>) {
    && c.green == verdicts[Applies(Green)] && c.amber == verdicts[Applies(Amber)]
    && c.red == verdicts[Applies(Red)] && c.na == verdicts[NotApplicable]
  }

  lemma {:induction false} TallyCounts(results: seq<Finding>)
    ensures var c := Tally(results);
            c.green + c.amber + c.red + c.na == |results| && CountsVerdicts(c, multiset(Verdicts(results)))
  {
    CountsPartition(results);
    CountIsMultiplicity(results, Applies(Green));
    CountIsMultiplicity(results, Applies(Amber));
    CountIsMultiplicity(results, Applies(Red));
    CountIsMultiplicity(results, NotApplicable);
  }

  /** With g of n applicable requirements green: the score is their share, and the
      light goes by tenths unless a mandatory requirement is red. */
  ghost predicate Tells(g: int, n: int, mustRed: bool, score: real, overall: Light) {
    && (n == 0 ==> score == 0.0) && (n > 0 ==> score * n as real == g as real)
    && overall == if mustRed || n == 0 then Red
                  else if 10 * g >= 7 * n then Green else if 10 * g >= 4 * n then Amber else Red
  }

  lemma ScoreTells(mustRed: bool, c: Counts)
    ensures Tells(c.green, Applicable(c), mustRed, Score(c), LightFor(mustRed, Score(c)))
  {
    LightByCounts(mustRed, c);
    if Applicable(c) > 0 {
      Quotient(c.green as real, Applicable(c) as real);
    }
  }

  lemma Quotient(x: real, y: real)
    requires y > 0.0
    ensures x / y * y == x
  {
  }

  method Aggregate(results: seq<Finding>) returns (counts: Counts, score: real, overall: Light)
    ensures counts == Tally(results) && score == Score(counts) && overall == Overall(results)
    ensures counts.green + counts.amber + counts.red + counts.na == |results|
    ensures CountsVerdicts(counts, multiset(Verdicts(results)))
    ensures Tells(counts.green, |results| - counts.na, exists i :: 0 <= i < |results| && results[i] == Finding(Applies(Red), true),
                  score, overall)
  {
    counts := Counts(0, 0, 0, 0);
    for i := 0 to |results|
      invariant counts == Tally(results[..i])
    {
      assert results[..i + 1][..i] == results[..i];
      match results[i].verdict
      case Applies(Green) => counts := counts.(green := counts.green + 1);
      case Applies(Amber) => counts := counts.(amber := counts.amber + 1);
      case Applies(Red) => counts := counts.(red := counts.red + 1);
      case NotApplicable => counts := counts.(na := counts.na + 1);
    }
    assert results[..|results|] == results;
    TallyCounts(results);
    score := Score(counts);
    ScoreTells(HasMustRed(results), counts);
    if HasMustRed(results) {
      overall := Red;
    } else if score >= 0.7 {
      overall := Green;
    } else if score >= 0.4 {
      overall := Amber;
    } else {
      overall := Red;
    }
  }

  function Level(l: Light): nat {
    match l case Red => 0 case Amber => 1 case Green => 2
  }

  ghost predicate Better(v: Verdict, w: Verdict) {
    v.Applies? && w.Applies? && Level(v.light) <= Level(w.light)
  }

  lemma {:induction false} CountsPartition(results: seq<Finding>)
    ensures var c := Tally(results); c.green + c.amber + c.red + c.na == |results|
  {
    if results != [] {
      CountsPartition(results[..|results| - 1]);
      match results[|results| - 1].verdict
      case Applies(Green) =>
      case Applies(Amber) =>
      case Applies(Red) =>
      case NotApplicable =>
    }
  }

  lemma {:induction false} CountAfter(results: seq<Finding>, i: nat, r: Finding, v: Verdict)
    requires i < |results|
    ensures Count(results[i := r], v) + (if results[i].verdict == v then 1 else 0)
         == Count(results, v) + (if r.verdict == v then 1 else 0)
  {
    var n := |results| - 1;
    if i < n {
      CountAfter(results[..n], i, r, v);
      assert results[i := r][..n] == results[..n][i := r];
    } else {
      assert results[i := r][..n] == results[..n];
    }
  }

  lemma QuotientAtLeast(x: real, y: real, t: real)
    requires y > 0.0
    ensures x / y >= t <==> x >= t * y
  {
    var q := x / y;
    assert q * y == x;
    if q >= t {
      assert (q - t) * y >= 0.0;
    } else {
      assert (t - q) * y > 0.0;
    }
  }

  /** Fractions compare as their cross products do. */
  lemma CrossMultiply(x: real, y: real, x': real, y': real)
    requires y > 0.0 && y' > 0.0 && x * y' <= x' * y
    ensures x / y <= x' / y'
  {
    var q := x / y;
    assert q * y == x;
    assert (q * y') * y == x * y';
    QuotientAtLeast(x', y', q);
    assert q * y' <= x';
  }

  lemma CrossProducts(g: nat, n: nat, g': nat, n': nat)
    requires (n' == n && g <= g') || (n == n' + 1 && g' == g)
    ensures g as real * n' as real <= g' as real * n as real
  {
    if n' == n {
      assert (g' as real - g as real) * n as real >= 0.0;
    } else {
      assert n as real == n' as real + 1.0;
    }
  }

  lemma CrossProductsDown(g: nat, n: nat)
    requires 0 < g <= n
    ensures (g as real - 1.0) * n as real <= g as real * (n as real - 1.0)
  {
  }

  /** The two thresholds in whole numbers. */
  lemma LightByCounts(mustRed: bool, c: Counts)
    ensures var g, n := c.green, Applicable(c);
            LightFor(mustRed, Score(c)) == if mustRed || n == 0 then Red
                                           else if 10 * g >= 7 * n then Green
                                           else if 10 * g >= 4 * n then Amber else Red
  {
    var g, n := c.green, Applicable(c);
    if n > 0 {
      QuotientAtLeast(g as real, n as real, 0.7);
      QuotientAtLeast(g as real, n as real, 0.4);
    }
  }

  /** What a change of one verdict does to the counts and to the mandatory reds. */
  lemma ImproveCounts(results: seq<Finding>, i: nat, v: Verdict)
    requires i < |results| && Better(results[i].verdict, v)
    ensures var better := results[i := results[i].(verdict := v)];
            var c, c' := Tally(results), Tally(better);
            Applicable(c') == Applicable(c) && c.green <= c'.green && (HasMustRed(better) ==> HasMustRed(results))
  {
    var r := results[i].(verdict := v);
    var better := results[i := r];
    CountAfter(results, i, r, Applies(Green));
    CountAfter(results, i, r, Applies(Amber));
    CountAfter(results, i, r, Applies(Red));
    if HasMustRed(better) {
      var k :| 0 <= k < |better| && better[k] == Finding(Applies(Red), true);
      assert results[k] == Finding(Applies(Red), true);
    }
  }

  lemma ImproveScore(c: Counts, c': Counts)
    requires Applicable(c') == Applicable(c) && c.green <= c'.green
    ensures Score(c) <= Score(c')
  {
    var n := Applicable(c);
    if n > 0 {
      CrossProducts(c.green, n, c'.green, n);
      CrossMultiply(c.green as real, n as real, c'.green as real, n as real);
    }
  }

  /** Improving the verdict on one requirement never worsens the overall light. */
  lemma ImprovingNeverWorsens(results: seq<Finding>, i: nat, v: Verdict)
    requires i < |results| && Better(results[i].verdict, v)
    ensures var better := results[i := results[i].(verdict := v)];
            && Score(Tally(results)) <= Score(Tally(better))
            && Level(Overall(results)) <= Level(Overall(better))
  {
    ImproveCounts(results, i, v);
    ImproveScore(Tally(results), Tally(results[i := results[i].(verdict := v)]));
  }

  lemma DropCounts(results: seq<Finding>, i: nat)
    requires i < |results| && results[i].verdict.Applies?
    ensures var c, c' := Tally(results), Tally(results[i := results[i].(verdict := NotApplicable)]);
            && Applicable(c') == Applicable(c) - 1
            && c'.green == c.green - (if results[i].verdict == Applies(Green) then 1 else 0)
            && c'.green <= Applicable(c')
  {
    var r := results[i].(verdict := NotApplicable);
    CountAfter(results, i, r, Applies(Green));
    CountAfter(results, i, r, Applies(Amber));
    CountAfter(results, i, r, Applies(Red));
    match results[i].verdict.light
    case Green =>
    case Amber =>
    case Red =>
  }

  lemma DropMustRed(results: seq<Finding>, i: nat)
    requires i < |results| && results[i].verdict.Applies?
    ensures var dropped := results[i := results[i].(verdict := NotApplicable)];
            && (HasMustRed(dropped) ==> HasMustRed(results))
            && (results[i].verdict == Applies(Green) ==> (HasMustRed(results) ==> HasMustRed(dropped)))
  {
    var dropped := results[i := results[i].(verdict := NotApplicable)];
    if HasMustRed(dropped) {
      var k :| 0 <= k < |dropped| && dropped[k] == Finding(Applies(Red), true);
      assert results[k] == Finding(Applies(Red), true);
    }
    if results[i].verdict == Applies(Green) && HasMustRed(results) {
      var k :| 0 <= k < |results| && results[k] == Finding(Applies(Red), true);
      assert dropped[k] == Finding(Applies(Red), true);
    }
  }

  lemma DropScore(c: Counts, c': Counts)
    requires Applicable(c') == Applicable(c) - 1
    ensures c'.green == c.green ==> Score(c) <= Score(c')
    ensures c'.green + 1 == c.green ==> Score(c') <= Score(c)
  {
    var g, n, n' := c.green, Applicable(c), Applicable(c');
    if n' > 0 {
      if c'.green == g {
        CrossProducts(g, n, g, n');
        CrossMultiply(g as real, n as real, g as real, n' as real);
      } else if c'.green + 1 == g {
        CrossProductsDown(g, n);
        CrossMultiply(g as real - 1.0, n as real - 1.0, g as real, n as real);
      }
    }
  }

  /** A requirement found not applicable after all: dropping one that is not green
      never lowers the score or the light. Dropping a green one never raises them,
      and changes the light exactly when no mandatory requirement is red and it was
      the only one that applied or its loss takes the share of green ones below
      seven or four tenths. */
  lemma DroppingARequirement(results: seq<Finding>, i: nat)
    requires i < |results| && results[i].verdict.Applies?
    ensures var dropped := results[i := results[i].(verdict := NotApplicable)];
            var c := Tally(results); var g, n := c.green, Applicable(c);
            if results[i].verdict != Applies(Green) then
              Score(c) <= Score(Tally(dropped)) && Level(Overall(results)) <= Level(Overall(dropped))
            else
              && Score(Tally(dropped)) <= Score(c) && Level(Overall(dropped)) <= Level(Overall(results))
              && (Overall(dropped) != Overall(results) <==>
                    !HasMustRed(results) && (n == 1 || 7 * n <= 10 * g < 7 * n + 3 || 4 * n <= 10 * g < 4 * n + 6))
  {
    var dropped := results[i := results[i].(verdict := NotApplicable)];
    var c, c' := Tally(results), Tally(dropped);
    DropCounts(results, i);
    DropMustRed(results, i);
    LightByCounts(HasMustRed(results), c);
    LightByCounts(HasMustRed(dropped), c');
    DropScore(c, c');
  }
}
