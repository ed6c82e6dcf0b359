/** Vocabulary shared by the component models. */
module Prelude {

  datatype Option<+T> = None | Some(value: T) {
    function GetOr(default: T): T {
      if Some? then value else default
    }
  }

  datatype Result<+T, +E> = Ok(value: T) | Err(error: E)

  ghost predicate Distinct<T>(s: seq<T>) {
    forall i, j :: 0 <= i < j < |s| ==> s[i] != s[j]
  }

  ghost function Elements<T>(s: seq<T>): set<T> {
    set x | x in s
  }

  function Min(a: int, b: int): int { if a <= b then a else b }

  function Max(a: int, b: int): int { if a <= b then b else a }

  /** Size of the elements of a sequence without repetition. */
  lemma {:induction false} DistinctCount<T>(s: seq<T>)
    requires Distinct(s)
    ensures |Elements(s)| == |s|
  {
    if s == [] {
      assert Elements(s) == {};
    } else {
      var n := |s| - 1;
      DistinctCount(s[..n]);
      assert s == s[..n] + [s[n]];
      assert Elements(s) == Elements(s[..n]) + {s[n]};
    }
  }

  lemma {:induction false} SubsetCount<T>(a: set<T>, b: set<T>)
    requires a <= b
    ensures |a| <= |b|
  {
    if x :| x in a {
      SubsetCount(a - {x}, b - {x});
    }
  }

  ghost function Below(n: nat): (r: set<nat>)
    ensures forall x: nat :: x in r <==> x < n
    ensures |r| == n
  {
    if n == 0 then {} else Below(n - 1) + {n - 1}
  }

  lemma Rejoin<T>(s: seq<T>)
    requires s != []
    ensures s[..|s| - 1] + [s[|s| - 1]] == s
  {
  }

  lemma RejoinAfter<T>(a: seq<T>, b: seq<T>)
    requires b != []
    ensures a + b[..|b| - 1] + [b[|b| - 1]] == a + b
  {
  }

  lemma Nothing<T>(s: seq<T>)
    ensures s + [] == s
  {
  }

  lemma NothingBefore<T>(s: seq<T>)
    ensures [] + s == s
  {
  }

  lemma Regroup<T>(a: seq<T>, b: seq<T>, c: seq<T>)
    ensures a + b + c == a + (b + c)
  {
  }

  lemma TakeOneMore<T>(s: seq<T>, k: nat)
    requires k < |s|
    ensures s[..k] + [s[k]] == s[..k + 1]
  {
  }

  lemma MultisetWithout<T>(b: seq<T>, k: nat)
    requires k < |b|
    ensures multiset(b[..k] + b[k + 1..]) == multiset(b) - multiset{b[k]}
  {
    assert b == b[..k] + [b[k]] + b[k + 1..];
  }

  lemma MultisetFront<T>(s: seq<T>)
    requires s != []
    ensures multiset(s[..|s| - 1]) == multiset(s) - multiset{s[|s| - 1]}
  {
    assert s == s[..|s| - 1] + [s[|s| - 1]];
  }

  function Sum(xs: seq<nat>): nat {
    if xs == [] then 0 else Sum(xs[..|xs| - 1]) + xs[|xs| - 1]
  }

  lemma {:induction false} SumIsZeroIff(xs: seq<nat>)
    ensures Sum(xs) == 0 <==> forall i :: 0 <= i < |xs| ==> xs[i] == 0
  {
    if xs != [] {
      var front := xs[..|xs| - 1];
      SumIsZeroIff(front);
      assert forall i :: 0 <= i < |front| ==> xs[i] == front[i];
    }
  }

  ghost function Total(m: map<string, nat>): nat {
    if m == map[] then 0 else var k :| k in m; m[k] + Total(m - {k})
  }

  lemma {:induction false} TotalWithout(m: map<string, nat>, k: string)
    requires k in m
    ensures Total(m) == m[k] + Total(m - {k})
    decreases |m|
  {
    var c :| c in m && Total(m) == m[c] + Total(m - {c});
    if c != k {
      TotalWithout(m - {c}, k);
      TotalWithout(m - {k}, c);
      assert m - {c} - {k} == m - {k} - {c};
    }
  }

  /** How a dictionary of counters is bumped. */
  function Bump(m: map<string, nat>, k: string): map<string, nat> {
    m[k := (if k in m then m[k] else 0) + 1]
  }

  lemma {:induction false} BumpAddsOne(m: map<string, nat>, k: string)
    ensures Total(Bump(m, k)) == Total(m) + 1
  {
    TotalWithout(Bump(m, k), k);
    assert Bump(m, k) - {k} == m - {k};
    if k in m {
      TotalWithout(m, k);
    } else {
      assert m - {k} == m;
    }
  }

  // ---- Selecting from a sequence ------------------------------------------

  ghost predicate Increasing(at: seq<nat>, n: nat) {
    && (forall i :: 0 <= i < |at| ==> at[i] < n)
    && (forall i, j :: 0 <= i < j < |at| ==> at[i] < at[j])
  }

  ghost predicate Picks<T>(r: seq<T>, s: seq<T>, at: seq<nat>) {
    Increasing(at, |s|) && |r| == |at| && forall i :: 0 <= i < |at| ==> r[i] == s[at[i]]
  }

  /** `r` is what stands in `s` at the chosen positions, in order. */
  ghost predicate Selection<T>(r: seq<T>, s: seq<T>, chosen: set<nat>) {
    exists at: seq<nat> :: Picks(r, s, at) && Elements(at) == chosen
  }

  lemma SelectNothing<T>()
    ensures Selection<T>([], [], {})
  {
    var at: seq<nat> := [];
    assert Picks<T>([], [], at) && Elements(at) == {};
  }

  lemma SelectSkip<T>(r: seq<T>, s: seq<T>, chosen: set<nat>, x: T)
    requires Selection(r, s, chosen)
    ensures Selection(r, s + [x], chosen)
  {
    var at: seq<nat> :| Picks(r, s, at) && Elements(at) == chosen;
    assert Picks(r, s + [x], at);
  }

  lemma SelectTake<T>(r: seq<T>, s: seq<T>, chosen: set<nat>, x: T)
    requires Selection(r, s, chosen)
    ensures Selection(r + [x], s + [x], chosen + {|s|})
  {
    var at: seq<nat> :| Picks(r, s, at) && Elements(at) == chosen;
    var more := at + [|s|];
    assert Picks(r + [x], s + [x], more);
    assert Elements(more) == chosen + {|s|};
  }

  lemma SelectNext<T>(r: seq<T>, s: seq<T>, chosen: set<nat>, x: T, take: bool)
    requires Selection(r, s, chosen)
    ensures Selection(r + if take then [x] else [], s + [x], chosen + if take then {|s|} else {})
  {
    if take {
      SelectTake(r, s, chosen, x);
    } else {
      SelectSkip(r, s, chosen, x);
      Nothing(r);
      assert chosen + {} == chosen;
    }
  }

  ghost function ShiftedUp(chosen: set<nat>): set<nat> {
    set j | j in chosen :: j + 1
  }

  lemma OneOn(at: seq<nat>, on: seq<nat>)
    requires |on| == |at| && forall i :: 0 <= i < |at| ==> on[i] == at[i] + 1
    ensures Elements(on) == ShiftedUp(Elements(at))
  {
    forall j | j in on
      ensures j in ShiftedUp(Elements(at))
    {
      var i :| 0 <= i < |on| && on[i] == j;
      assert at[i] in Elements(at) && at[i] + 1 == j;
    }
    forall j | j in ShiftedUp(Elements(at))
      ensures j in on
    {
      var i :| 0 <= i < |at| && at[i] + 1 == j;
      assert on[i] == j;
    }
  }

  lemma PickOneOn<T>(r: seq<T>, s: seq<T>, at: seq<nat>, x: T) returns (on: seq<nat>)
    requires Picks(r, s, at)
    ensures Picks(r, [x] + s, on) && Elements(on) == ShiftedUp(Elements(at)) && forall i :: 0 <= i < |on| ==> on[i] > 0
  {
    on := seq(|at|, i requires 0 <= i < |at| => at[i] + 1);
    OneOn(at, on);
  }

  lemma SkipFirst<T>(r: seq<T>, s: seq<T>, chosen: set<nat>, x: T)
    requires Selection(r, s, chosen)
    ensures Selection(r, [x] + s, ShiftedUp(chosen))
  {
    var at: seq<nat> :| Picks(r, s, at) && Elements(at) == chosen;
    var on := PickOneOn(r, s, at, x);
  }

  lemma TakeFirst<T>(r: seq<T>, s: seq<T>, chosen: set<nat>, x: T)
    requires Selection(r, s, chosen)
    ensures Selection([x] + r, [x] + s, {0} + ShiftedUp(chosen))
  {
    var at: seq<nat> :| Picks(r, s, at) && Elements(at) == chosen;
    var on := PickOneOn(r, s, at, x);
    assert Picks([x] + r, [x] + s, [0] + on);
    assert Elements([0] + on) == {0} + Elements(on);
  }

  /** A selection is all there is to know: nothing else stands at those positions. */
  lemma {:induction false} SelectionIsUnique<T>(r: seq<T>, r': seq<T>, s: seq<T>, chosen: set<nat>)
    requires Selection(r, s, chosen) && Selection(r', s, chosen)
    ensures r == r'
  {
    var at: seq<nat> :| Picks(r, s, at) && Elements(at) == chosen;
    var at': seq<nat> :| Picks(r', s, at') && Elements(at') == chosen;
    IncreasingIsUnique(at, at', |s|);
  }

  lemma {:induction false} IncreasingIsUnique(a: seq<nat>, b: seq<nat>, n: nat)
    requires Increasing(a, n) && Increasing(b, n) && Elements(a) == Elements(b)
    ensures a == b
  {
    if a == [] {
      NonEmptyElements(b);
    } else {
      NonEmptyElements(a);
      var i, j := |a| - 1, |b| - 1;
      LastIsLargest(a, b, n);
      assert Elements(a[..i]) == Elements(a) - {a[i]} && Elements(b[..j]) == Elements(b) - {b[j]};
      IncreasingIsUnique(a[..i], b[..j], n);
      Rejoin(a);
      Rejoin(b);
    }
  }

  lemma NonEmptyElements(b: seq<nat>)
    ensures b != [] ==> Elements(b) != {}
  {
    if b != [] {
      assert b[0] in Elements(b);
    }
  }

  lemma LastIsLargest(a: seq<nat>, b: seq<nat>, n: nat)
    requires Increasing(a, n) && Increasing(b, n) && Elements(a) == Elements(b) && a != [] && b != []
    ensures a[|a| - 1] == b[|b| - 1]
  {
    assert a[|a| - 1] in Elements(b) && b[|b| - 1] in Elements(a);
    var i :| 0 <= i < |b| && b[i] == a[|a| - 1];
    var j :| 0 <= j < |a| && a[j] == b[|b| - 1];
  }
}
