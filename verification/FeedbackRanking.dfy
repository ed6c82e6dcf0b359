/** Feedback votes and the bounded nudge they give to a ranking.

    `tanh` is a parameter `squash`; all that is used of it is IsSquash. */
module FeedbackRanking {
  import opened Prelude

  type DocId = string

  /** A stored document id either parses as a UUID or is skipped. */
  datatype RawId = Malformed | Uuid(id: DocId)

  datatype Row = Row(rating: int, normalizedQuery: string, documentIds: seq<RawId>)

  datatype Signal = Signal(globalNet: int, queryNet: int)

  const MAX_ROWS: nat := 4000
  const NUDGE_STRENGTH: real := 2.0

  ghost predicate IsSquash(squash: real -> real) {
    && (forall x :: -1.0 <= squash(x) <= 1.0)
    && (forall x, y :: x <= y ==> squash(x) <= squash(y))
    && squash(0.0) == 0.0
  }

  function RawScore(s: Signal): real {
    0.15 * s.globalNet as real + 0.45 * s.queryNet as real
  }

  // ---- Aggregating votes --------------------------------------------------

  function Votes(rating: int, ids: seq<RawId>, d: DocId): int {
    if ids == [] then 0
    else Votes(rating, ids[..|ids| - 1], d) + if ids[|ids| - 1] == Uuid(d) then rating else 0
  }

  /** What a row adds to `d`; with `only`, rows for another question add nothing. */
  function RowNet(row: Row, only: Option<string>, d: DocId): int {
    if only == None || only == Some(row.normalizedQuery) then Votes(row.rating, row.documentIds, d) else 0
  }

  function Net(rows: seq<Row>, only: Option<string>, d: DocId): int {
    if rows == [] then 0
    else Net(rows[..|rows| - 1], only, d) + RowNet(rows[|rows| - 1], only, d)
  }

  ghost predicate Mentions(rows: seq<Row>, d: DocId) {
    exists i :: 0 <= i < |rows| && Uuid(d) in rows[i].documentIds
  }

  ghost predicate SignalsMatch(signals: map<DocId, Signal>, rows: seq<Row>, query: string) {
    && (forall d :: d in signals <==> Mentions(rows, d))
    && (forall d :: d in signals ==> signals[d] == Signal(Net(rows, None, d), Net(rows, Some(query), d)))
  }

  /** Rows come newest first; only the newest MAX_ROWS are read. */
  function Window(stored: seq<Row>): seq<Row> {
    stored[..Min(|stored|, MAX_ROWS)]
  }

  function Get(m: map<DocId, int>, d: DocId): int {
    if d in m then m[d] else 0
  }

  function Credit(m: map<DocId, int>, rating: int, ids: seq<RawId>): map<DocId, int> {
    if ids == [] then m
    else
      var before, last := Credit(m, rating, ids[..|ids| - 1]), ids[|ids| - 1];
      if last.Uuid? then before[last.id := Get(before, last.id) + rating] else before
  }

  lemma {:induction false} CreditAddsVotes(m: map<DocId, int>, rating: int, ids: seq<RawId>, d: DocId)
    ensures Get(Credit(m, rating, ids), d) == Get(m, d) + Votes(rating, ids, d)
    ensures d in Credit(m, rating, ids) <==> d in m || Uuid(d) in ids
  {
    if ids != [] {
      var n := |ids| - 1;
      CreditAddsVotes(m, rating, ids[..n], d);
      assert Uuid(d) in ids <==> Uuid(d) in ids[..n] || Uuid(d) == ids[n];
    }
  }

  /** The inner loop: one row's votes. */
  method AddRow(globalNet: map<DocId, int>, queryNet: map<DocId, int>, row: Row, query: string)
    returns (g: map<DocId, int>, q: map<DocId, int>)
    ensures g == Credit(globalNet, row.rating, row.documentIds)
    ensures q == if row.normalizedQuery == query then Credit(queryNet, row.rating, row.documentIds) else queryNet
  {
    g, q := globalNet, queryNet;
    var ids := row.documentIds;
    for j := 0 to |ids|
      invariant g == Credit(globalNet, row.rating, ids[..j])
      invariant q == if row.normalizedQuery == query then Credit(queryNet, row.rating, ids[..j]) else queryNet
    {
      assert ids[..j + 1][..j] == ids[..j];
      if ids[j].Uuid? {
        var d := ids[j].id;
        g := g[d := Get(g, d) + row.rating];
        if row.normalizedQuery == query {
          q := q[d := Get(q, d) + row.rating];
        }
      }
    }
    assert ids[..|ids|] == ids;
  }

  ghost predicate Tallies(g: map<DocId, int>, q: map<DocId, int>, rows: seq<Row>, query: string, d: DocId) {
    && (d in g <==> Mentions(rows, d))
    && (d in q ==> d in g)
    && Get(g, d) == Net(rows, None, d)
    && Get(q, d) == Net(rows, Some(query), d)
  }

  lemma RowIsTallied(g: map<DocId, int>, q: map<DocId, int>, rows: seq<Row>, row: Row, query: string, d: DocId)
    requires Tallies(g, q, rows, query, d)
    ensures var q' := if row.normalizedQuery == query then Credit(q, row.rating, row.documentIds) else q;
            Tallies(Credit(g, row.rating, row.documentIds), q', rows + [row], query, d)
  {
    assert (rows + [row])[..|rows|] == rows;
    MentionsSplit(rows, row, d);
    CreditAddsVotes(g, row.rating, row.documentIds, d);
    CreditAddsVotes(q, row.rating, row.documentIds, d);
  }

  method SignalsFor(stored: seq<Row>, query: string) returns (signals: map<DocId, Signal>)
    ensures SignalsMatch(signals, Window(stored), query)
  {
    var rows := Window(stored);
    var globalNet: map<DocId, int>, queryNet: map<DocId, int> := map[], map[];
    for i := 0 to |rows|
      invariant forall d :: Tallies(globalNet, queryNet, rows[..i], query, d)
    {
      ghost var g, q, read := globalNet, queryNet, rows[..i + 1];
      globalNet, queryNet := AddRow(globalNet, queryNet, rows[i], query);
      assert read == rows[..i] + [rows[i]];
      forall d
        ensures Tallies(globalNet, queryNet, read, query, d)
      {
        RowIsTallied(g, q, rows[..i], rows[i], query, d);
      }
    }
    assert rows[..|rows|] == rows;
    signals := map d | d in globalNet.Keys + queryNet.Keys :: Signal(Get(globalNet, d), Get(queryNet, d));
    forall d
      ensures d in signals <==> Mentions(rows, d)
      ensures d in signals ==> signals[d] == Signal(Net(rows, None, d), Net(rows, Some(query), d))
    {
      assert Tallies(globalNet, queryNet, rows, query, d);
    }
  }

  lemma MentionsSplit(rows: seq<Row>, row: Row, d: DocId)
    ensures Mentions(rows + [row], d) <==> Mentions(rows, d) || Uuid(d) in row.documentIds
  {
    var all := rows + [row];
    assert all[|rows|] == row;
    assert forall i :: 0 <= i < |rows| ==> all[i] == rows[i];
  }

  /** Aggregation is additive over concatenation of row batches. */
  lemma {:induction false} NetIsAdditive(a: seq<Row>, b: seq<Row>, only: Option<string>, d: DocId)
    ensures Net(a + b, only, d) == Net(a, only, d) + Net(b, only, d)
  {
    if b == [] {
      assert a + b == a;
    } else {
      var n := |b| - 1;
      assert (a + b)[..|a + b| - 1] == a + b[..n];
      NetIsAdditive(a, b[..n], only, d);
    }
  }

  lemma NetWithout(b: seq<Row>, k: nat, only: Option<string>, d: DocId)
    requires k < |b|
    ensures Net(b, only, d) == Net(b[..k] + b[k + 1..], only, d) + RowNet(b[k], only, d)
  {
    var l, r := b[..k], b[k + 1..];
    assert b == l + [b[k]] + r;
    NetIsAdditive(l + [b[k]], r, only, d);
    NetIsAdditive(l, r, only, d);
    assert (l + [b[k]])[..|l|] == l;
  }

  /** Aggregation does not depend on the order of the rows. */
  lemma {:induction false} NetIgnoresOrder(a: seq<Row>, b: seq<Row>, only: Option<string>, d: DocId)
    requires multiset(a) == multiset(b)
    ensures Net(a, only, d) == Net(b, only, d)
  {
    if a == [] {
      assert |multiset(b)| == 0;
    } else {
      var n := |a| - 1;
      assert a[n] in multiset(b);
      var k :| 0 <= k < |b| && b[k] == a[n];
      MultisetFront(a);
      MultisetWithout(b, k);
      NetIgnoresOrder(a[..n], b[..k] + b[k + 1..], only, d);
      NetWithout(b, k, only, d);
    }
  }

  lemma {:induction false} UnmentionedIsZero(rows: seq<Row>, only: Option<string>, d: DocId)
    requires !Mentions(rows, d)
    ensures Net(rows, only, d) == 0
  {
    if rows != [] {
      var n := |rows| - 1;
      UnmentionedIsZero(rows[..n], only, d);
      NoVotes(rows[n].rating, rows[n].documentIds, d);
    }
  }

  lemma {:induction false} NoVotes(rating: int, ids: seq<RawId>, d: DocId)
    requires Uuid(d) !in ids
    ensures Votes(rating, ids, d) == 0
  {
    if ids != [] {
      NoVotes(rating, ids[..|ids| - 1], d);
    }
  }

  lemma {:induction false} VotesSign(rating: int, ids: seq<RawId>, d: DocId)
    ensures rating >= 0 ==> Votes(rating, ids, d) >= 0
    ensures rating <= 0 ==> Votes(rating, ids, d) <= 0
  {
    if ids != [] {
      VotesSign(rating, ids[..|ids| - 1], d);
    }
  }

  lemma TimesOneMore(rating: int, n: nat)
    ensures rating * (n + 1) == rating * n + rating
  {
  }

  lemma {:induction false} VotesAreRatings(rating: int, ids: seq<RawId>, d: DocId)
    ensures Votes(rating, ids, d) == rating * multiset(ids)[Uuid(d)]
  {
    if ids != [] {
      var front, last := ids[..|ids| - 1], ids[|ids| - 1];
      VotesAreRatings(rating, front, d);
      Rejoin(ids);
      assert multiset(ids) == multiset(front) + multiset{last};
      TimesOneMore(rating, multiset(front)[Uuid(d)]);
    }
  }

  /** A row adds its rating, sign and all, once for each time it names the document;
      for one question, only if it was asked about that question. */
  lemma {:induction false} OneRowAdds(rating: int, question: string, ids: seq<RawId>, d: DocId, query: string)
    ensures var row := Row(rating, question, ids);
            && Net([row], None, d) == rating * multiset(ids)[Uuid(d)]
            && Net([row], Some(query), d) == if question == query then rating * multiset(ids)[Uuid(d)] else 0
  {
    VotesAreRatings(rating, ids, d);
    NetOfOne(Row(rating, question, ids), None, d);
    NetOfOne(Row(rating, question, ids), Some(query), d);
  }

  /** An upvote and a downvote on the same documents cancel, wherever they stand. */
  lemma {:induction false} OppositeVotesCancel(a: seq<Row>, b: seq<Row>, c: seq<Row>, question: string, ids: seq<RawId>,
                                               only: Option<string>, d: DocId)
    ensures Net(a + [Row(1, question, ids)] + b + [Row(-1, question, ids)] + c, only, d) == Net(a + b + c, only, d)
  {
    var up, down := Row(1, question, ids), Row(-1, question, ids);
    NetIsAdditive(a + [up] + b + [down], c, only, d);
    NetIsAdditive(a + [up] + b, [down], only, d);
    NetIsAdditive(a + [up], b, only, d);
    NetIsAdditive(a, [up], only, d);
    NetIsAdditive(a + b, c, only, d);
    NetIsAdditive(a, b, only, d);
    NetOfOne(up, only, d);
    NetOfOne(down, only, d);
    VotesAreRatings(1, ids, d);
    VotesAreRatings(-1, ids, d);
  }

  // ---- Ranking ------------------------------------------------------------

  function Scale(strength: real, pull: real): real {
    strength * pull
  }

  function Shift(signals: map<DocId, Signal>, squash: real -> real, strength: real, d: DocId): real {
    if d in signals then Scale(strength, squash(RawScore(signals[d]))) else 0.0
  }

  function Keys(docs: seq<DocId>, signals: map<DocId, Signal>, squash: real -> real, strength: real): seq<real> {
    seq(|docs|, i requires 0 <= i < |docs| => i as real - Shift(signals, squash, strength, docs[i]))
  }

  /** The order of a stable sort: by key, then by incoming position. */
  predicate Before(keys: seq<real>, i: nat, j: nat)
    requires i < |keys| && j < |keys|
  {
    keys[i] < keys[j] || (keys[i] == keys[j] && i < j)
  }

  ghost predicate IsStableOrder(keys: seq<real>, order: seq<nat>) {
    && |order| == |keys|
    && (forall a :: 0 <= a < |order| ==> order[a] < |keys|)
    && (forall i :: 0 <= i < |keys| ==> i in order)
    && (forall a, b :: 0 <= a < b < |order| ==> Before(keys, order[a], order[b]))
  }

  function Insert(keys: seq<real>, order: seq<nat>, i: nat): (r: seq<nat>)
    requires i < |keys| && i !in order
    requires forall a :: 0 <= a < |order| ==> order[a] < |keys|
    requires forall a, b :: 0 <= a < b < |order| ==> Before(keys, order[a], order[b])
    ensures |r| == |order| + 1
    ensures forall x :: x in r <==> x in order || x == i
    ensures forall a :: 0 <= a < |r| ==> r[a] < |keys|
    ensures forall a, b :: 0 <= a < b < |r| ==> Before(keys, r[a], r[b])
  {
    if order == [] then [i]
    else
      var n := |order| - 1;
      if Before(keys, order[n], i) then
        assert forall a :: 0 <= a < n ==> Before(keys, order[a], order[n]);
        order + [i]
      else
        assert order[n] in order && Before(keys, i, order[n]);
        assert forall a :: 0 <= a < n ==> Before(keys, order[a], order[n]);
        assert forall x :: x in order <==> x in order[..n] || x == order[n];
        var r' := Insert(keys, order[..n], i);
        assert forall a :: 0 <= a < |r'| ==> r'[a] in order[..n] || r'[a] == i;
        assert forall x :: x in order[..n] ==> Before(keys, x, order[n]);
        r' + [order[n]]
  }

  function SortFirst(keys: seq<real>, n: nat): (r: seq<nat>)
    requires n <= |keys|
    ensures |r| == n && (forall i :: i in r <==> 0 <= i < n)
    ensures forall a :: 0 <= a < |r| ==> r[a] < |keys|
    ensures forall a, b :: 0 <= a < b < |r| ==> Before(keys, r[a], r[b])
  {
    if n == 0 then [] else Insert(keys, SortFirst(keys, n - 1), n - 1)
  }

  function Identity(n: nat): seq<nat> {
    seq(n, i requires 0 <= i < n => i)
  }

  /** The order the nudge returns the hits in, as incoming positions. */
  function NudgeOrder(docs: seq<DocId>, signals: map<DocId, Signal>, squash: real -> real, strength: real): seq<nat> {
    if signals == map[] || docs == [] then Identity(|docs|)
    else var keys := Keys(docs, signals, squash, strength); SortFirst(keys, |keys|)
  }

  lemma NudgeSortsStably(docs: seq<DocId>, signals: map<DocId, Signal>, squash: real -> real, strength: real)
    ensures IsStableOrder(Keys(docs, signals, squash, strength), NudgeOrder(docs, signals, squash, strength))
  {
    if signals == map[] || docs == [] {
      var order := Identity(|docs|);
      forall i | 0 <= i < |docs|
        ensures i in order
      {
        assert order[i] == i;
      }
    }
  }

  class Hit {
    const documentId: DocId
    var rank: int

    constructor (documentId: DocId, rank: int)
      ensures this.documentId == documentId && this.rank == rank
    {
      this.documentId, this.rank := documentId, rank;
    }
  }

  function Docs(hits: seq<Hit>): (docs: seq<DocId>)
    ensures |docs| == |hits| && forall i :: 0 <= i < |hits| ==> docs[i] == hits[i].documentId
  {
    seq(|hits|, i requires 0 <= i < |hits| => hits[i].documentId)
  }

  /** Without signals the hits come back untouched, ranks included. */
  method ApplyFeedbackNudge(hits: seq<Hit>, signals: map<DocId, Signal>, squash: real -> real, strength: real)
    returns (reordered: seq<Hit>)
    modifies hits
    ensures var order := NudgeOrder(Docs(hits), signals, squash, strength);
            && |reordered| == |order| == |hits|
            && (forall k :: 0 <= k < |order| ==> order[k] < |hits| && reordered[k] == hits[order[k]])
    ensures signals == map[] ==> forall h :: h in hits ==> h.rank == old(h.rank)
    ensures signals != map[] && Distinct(hits) ==> forall k :: 0 <= k < |reordered| ==> reordered[k].rank == k + 1
  {
    NudgeSortsStably(Docs(hits), signals, squash, strength);
    if signals == map[] || hits == [] {
      return hits;
    }
    var order := NudgeOrder(Docs(hits), signals, squash, strength);
    reordered := seq(|order|, k requires 0 <= k < |order| => hits[order[k]]);
    for k := 0 to |reordered|
      invariant Distinct(hits) ==> forall a :: 0 <= a < k ==> reordered[a].rank == a + 1
    {
      reordered[k].rank := k + 1;
      assert Distinct(hits) ==> forall a :: 0 <= a < k ==> reordered[a] != reordered[k] by {
        assert forall a :: 0 <= a < k ==> Before(Keys(Docs(hits), signals, squash, strength), order[a], order[k]);
      }
    }
  }

  // ---- Where a hit ends up ------------------------------------------------

  ghost function Ahead(keys: seq<real>, i: nat): set<nat>
    requires i < |keys|
  {
    set j: nat | j < |keys| && Before(keys, j, i)
  }

  /** A hit's new position, with no mention of sorting: how many go before it. */
  ghost function Position(keys: seq<real>, i: nat): nat
    requires i < |keys|
  {
    |Ahead(keys, i)|
  }

  lemma OrderGivesPosition(keys: seq<real>, order: seq<nat>, k: nat)
    requires IsStableOrder(keys, order) && k < |order|
    ensures Position(keys, order[k]) == k
  {
    var front := order[..k];
    assert Distinct(front);
    assert Ahead(keys, order[k]) == Elements(front) by {
      forall j: nat | j < |keys|
        ensures Before(keys, j, order[k]) <==> j in front
      {
        assert j in order;
        var a :| 0 <= a < |order| && order[a] == j;
        if a < k {
          assert front[a] == j;
        } else {
          assert forall b :: 0 <= b < k ==> Before(keys, order[b], order[a]);
        }
      }
    }
    DistinctCount(front);
  }

  /** What the nudge returns at place k is the hit with k hits ahead of it, also
      when there are no signals and the sort is skipped. */
  lemma NudgeFollowsPosition(docs: seq<DocId>, signals: map<DocId, Signal>, squash: real -> real, strength: real, k: nat)
    requires k < |docs|
    ensures var order := NudgeOrder(docs, signals, squash, strength);
            && |order| == |docs| && order[k] < |docs|
            && Position(Keys(docs, signals, squash, strength), order[k]) == k
  {
    NudgeSortsStably(docs, signals, squash, strength);
    OrderGivesPosition(Keys(docs, signals, squash, strength), NudgeOrder(docs, signals, squash, strength), k);
  }

  lemma ScaleOrder(strength: real, x: real, y: real)
    requires strength >= 0.0 && x <= y
    ensures Scale(strength, x) <= Scale(strength, y)
  {
    assert strength * (y - x) >= 0.0;
  }

  lemma ScaleBounds(strength: real, v: real)
    requires strength >= 0.0 && -1.0 <= v <= 1.0
    ensures -strength <= Scale(strength, v) <= strength
  {
    ScaleOrder(strength, -1.0, v);
    ScaleOrder(strength, v, 1.0);
  }

  lemma ShiftBounded(signals: map<DocId, Signal>, squash: real -> real, strength: real, d: DocId)
    requires IsSquash(squash) && strength >= 0.0
    ensures -strength <= Shift(signals, squash, strength, d) <= strength
  {
    if d in signals {
      var v := squash(RawScore(signals[d]));
      assert -1.0 <= v <= 1.0;
      ScaleBounds(strength, v);
    }
  }

  /** Hits at least twice the strength apart never swap. */
  lemma FarApartNeverSwap(docs: seq<DocId>, signals: map<DocId, Signal>, squash: real -> real, strength: real,
                          i: nat, j: nat)
    requires IsSquash(squash) && strength >= 0.0
    requires i < j < |docs| && (j - i) as real >= 2.0 * strength
    ensures Before(Keys(docs, signals, squash, strength), i, j)
  {
    ShiftBounded(signals, squash, strength, docs[i]);
    ShiftBounded(signals, squash, strength, docs[j]);
  }

  /** Chunks of one document keep their order. */
  lemma SameDocumentKeepsOrder(docs: seq<DocId>, signals: map<DocId, Signal>, squash: real -> real, strength: real,
                               i: nat, j: nat)
    requires i < j < |docs| && docs[i] == docs[j]
    ensures Before(Keys(docs, signals, squash, strength), i, j)
    ensures Position(Keys(docs, signals, squash, strength), i) < Position(Keys(docs, signals, squash, strength), j)
  {
    var keys := Keys(docs, signals, squash, strength);
    assert keys[i] - i as real == keys[j] - j as real;
    assert Ahead(keys, i) + {i} <= Ahead(keys, j);
    SubsetCount(Ahead(keys, i) + {i}, Ahead(keys, j));
  }

  /** `b` is pulled at most m + 1 places further than `a`. */
  ghost predicate WithinSpread(a: DocId, b: DocId, signals: map<DocId, Signal>, squash: real -> real, strength: real,
                               m: nat) {
    Shift(signals, squash, strength, b) - Shift(signals, squash, strength, a) <= m as real + 1.0
  }

  ghost predicate MovesAtMost(docs: seq<DocId>, signals: map<DocId, Signal>, squash: real -> real, strength: real,
                              i: nat, m: nat)
    requires i < |docs|
  {
    i - m <= Position(Keys(docs, signals, squash, strength), i) <= i + m
  }

  lemma FartherThanSpread(docs: seq<DocId>, signals: map<DocId, Signal>, squash: real -> real, strength: real,
                          m: nat, i: nat, j: nat)
    requires i < j < |docs| && i + m + 1 <= j && WithinSpread(docs[i], docs[j], signals, squash, strength, m)
    ensures var keys := Keys(docs, signals, squash, strength); Before(keys, i, j) && !Before(keys, j, i)
  {
    assert (j - i) as real >= m as real + 1.0;
  }

  ghost predicate ListWithinSpread(docs: seq<DocId>, signals: map<DocId, Signal>, squash: real -> real, strength: real,
                                   m: nat) {
    forall a, b :: a in docs && b in docs ==> WithinSpread(a, b, signals, squash, strength, m)
  }

  lemma FallsAtMost(docs: seq<DocId>, signals: map<DocId, Signal>, squash: real -> real, strength: real, m: nat, i: nat)
    requires i < |docs| && ListWithinSpread(docs, signals, squash, strength, m)
    ensures Position(Keys(docs, signals, squash, strength), i) <= i + m
  {
    var ahead, hi := Ahead(Keys(docs, signals, squash, strength), i), i + 1 + m;
    forall j | j in ahead
      ensures j in Below(hi) - {i}
    {
      if j >= hi {
        FartherThanSpread(docs, signals, squash, strength, m, i, j);
      }
    }
    SubsetCount(ahead, Below(hi) - {i});
  }

  lemma RisesAtMost(docs: seq<DocId>, signals: map<DocId, Signal>, squash: real -> real, strength: real, m: nat, i: nat)
    requires i < |docs| && ListWithinSpread(docs, signals, squash, strength, m)
    ensures i - m <= Position(Keys(docs, signals, squash, strength), i)
  {
    var ahead, lo := Ahead(Keys(docs, signals, squash, strength), i), Max(0, i - m);
    forall j | j in Below(lo)
      ensures j in ahead
    {
      FartherThanSpread(docs, signals, squash, strength, m, j, i);
    }
    SubsetCount(Below(lo), ahead);
  }

  /** If no two documents in the list are pulled more than m + 1 places apart, no
      hit moves more than m places. */
  lemma MoveBoundedBySpread(docs: seq<DocId>, signals: map<DocId, Signal>, squash: real -> real, strength: real,
                            m: nat, i: nat)
    requires i < |docs| && ListWithinSpread(docs, signals, squash, strength, m)
    ensures MovesAtMost(docs, signals, squash, strength, i, m)
  {
    FallsAtMost(docs, signals, squash, strength, m, i);
    RisesAtMost(docs, signals, squash, strength, m, i);
  }

  /** A hit pulled more than m + 1 places further than m + 1 hits before it passes them all. */
  lemma SpreadIsReached(a: DocId, b: DocId, signals: map<DocId, Signal>, squash: real -> real, strength: real, m: nat)
    requires !WithinSpread(a, b, signals, squash, strength, m)
    ensures var docs := seq(m + 1, _ => a) + [b];
            docs[m + 1] == b && Position(Keys(docs, signals, squash, strength), m + 1) == 0
  {
    var docs := seq(m + 1, _ => a) + [b];
    var keys := Keys(docs, signals, squash, strength);
    assert forall j :: 0 <= j <= m ==> docs[j] == a;
    assert keys[m + 1] < keys[0];
    assert forall j :: 0 <= j <= m ==> keys[0] <= keys[j];
    assert Ahead(keys, m + 1) == {};
  }

  /** For any signals, squash and strength: no hit of any list moves more than m
      places if and only if no two documents' shifts are more than m + 1 apart. For
      a couple of places that is a spread of three. */
  lemma MovesWithinIff(signals: map<DocId, Signal>, squash: real -> real, strength: real, m: nat)
    ensures (forall docs, i: nat :: i < |docs| ==> MovesAtMost(docs, signals, squash, strength, i, m))
            <==> (forall a, b :: WithinSpread(a, b, signals, squash, strength, m))
  {
    if forall a, b :: WithinSpread(a, b, signals, squash, strength, m) {
      forall docs, i: nat | i < |docs|
        ensures MovesAtMost(docs, signals, squash, strength, i, m)
      {
        MoveBoundedBySpread(docs, signals, squash, strength, m, i);
      }
    } else {
      var a, b :| !WithinSpread(a, b, signals, squash, strength, m);
      SpreadIsReached(a, b, signals, squash, strength, m);
      var docs := seq(m + 1, _ => a) + [b];
      assert !MovesAtMost(docs, signals, squash, strength, m + 1, m);
    }
  }

  lemma LargestWholeBelow(x: real) returns (m: nat)
    requires x >= 0.0
    ensures x <= (m + 1) as real && (if x == 0.0 then m == 0 else m as real < x)
  {
    m := if x == 0.0 then 0 else -((-x).Floor) - 1;
  }

  /** No hit moves as far as twice the strength, and at strength 0 none moves; at
      the default strength that is three places. */
  lemma MoveIsBounded(docs: seq<DocId>, signals: map<DocId, Signal>, squash: real -> real, strength: real, i: nat)
    requires IsSquash(squash) && strength >= 0.0 && i < |docs|
    ensures var p := Position(Keys(docs, signals, squash, strength), i);
            if strength == 0.0 then p == i
            else -2.0 * strength < (p - i) as real < 2.0 * strength
    ensures strength == NUDGE_STRENGTH ==> -3 <= Position(Keys(docs, signals, squash, strength), i) - i <= 3
  {
    var m := LargestWholeBelow(2.0 * strength);
    forall a, b | a in docs && b in docs
      ensures WithinSpread(a, b, signals, squash, strength, m)
    {
      ShiftBounded(signals, squash, strength, a);
      ShiftBounded(signals, squash, strength, b);
    }
    MoveBoundedBySpread(docs, signals, squash, strength, m, i);
  }

  /** The documentation promises moves of at most a couple of positions; here two
      opposing votes that pull more than three places apart move a hit three. */
  lemma ThreePlacesIsReached(squash: real -> real, strength: real, up: Signal, down: Signal, a: DocId, b: DocId)
    requires a != b && strength * squash(RawScore(up)) - strength * squash(RawScore(down)) > 3.0
    ensures Position(Keys([a, a, a, b], map[a := down, b := up], squash, strength), 3) == 0
  {
    var keys := Keys([a, a, a, b], map[a := down, b := up], squash, strength);
    var signals := map[a := down, b := up];
    assert Shift(signals, squash, strength, a) == strength * squash(RawScore(down));
    assert Shift(signals, squash, strength, b) == strength * squash(RawScore(up));
    assert Ahead(keys, 3) == {};
  }

  // ---- From one vote to the final rank ------------------------------------

  /** If no document's shift grows by more than that of `d`, no hit of `d` falls. */
  lemma BestGainNeverFalls(docs: seq<DocId>, s: map<DocId, Signal>, s': map<DocId, Signal>,
                           squash: real -> real, strength: real, d: DocId, i: nat)
    requires i < |docs| && docs[i] == d
    requires forall e :: Shift(s', squash, strength, e) - Shift(s, squash, strength, e)
                         <= Shift(s', squash, strength, d) - Shift(s, squash, strength, d)
    ensures Position(Keys(docs, s', squash, strength), i) <= Position(Keys(docs, s, squash, strength), i)
  {
    var keys, keys' := Keys(docs, s, squash, strength), Keys(docs, s', squash, strength);
    forall j: nat | j < |docs| && Before(keys', j, i)
      ensures Before(keys, j, i)
    {
      var e := docs[j];
      assert Shift(s', squash, strength, e) - Shift(s, squash, strength, e)
          <= Shift(s', squash, strength, d) - Shift(s, squash, strength, d);
    }
    SubsetCount(Ahead(keys', i), Ahead(keys, i));
  }

  ghost predicate NamesOnly(row: Row, d: DocId) {
    forall e :: Uuid(e) in row.documentIds ==> e == d
  }

  ghost function Contribution(rows: seq<Row>, query: string, d: DocId): real {
    RawScore(Signal(Net(rows, None, d), Net(rows, Some(query), d)))
  }

  /** A document's shift depends on its net votes alone, mentioned or not. */
  lemma ShiftFromRows(rows: seq<Row>, query: string, signals: map<DocId, Signal>, squash: real -> real,
                      strength: real, d: DocId)
    requires SignalsMatch(signals, rows, query) && squash(0.0) == 0.0
    ensures Shift(signals, squash, strength, d) == Scale(strength, squash(Contribution(rows, query, d)))
  {
    if d !in signals {
      UnmentionedIsZero(rows, None, d);
      UnmentionedIsZero(rows, Some(query), d);
    }
  }

  lemma NewestRowAdds(row: Row, stored: seq<Row>, query: string, d: DocId)
    requires |stored| < MAX_ROWS
    ensures Contribution(Window([row] + stored), query, d)
         == Contribution(Window(stored), query, d) + Contribution([row], query, d)
  {
    assert Window([row] + stored) == [row] + stored && Window(stored) == stored;
    NetIsAdditive([row], stored, None, d);
    NetIsAdditive([row], stored, Some(query), d);
  }

  lemma OneVoteContributes(row: Row, stored: seq<Row>, query: string, d: DocId, e: DocId)
    requires |stored| < MAX_ROWS && NamesOnly(row, d)
    ensures var x, y := Contribution(Window(stored), query, e), Contribution(Window([row] + stored), query, e);
            (e != d ==> x == y) && (row.rating >= 0 ==> x <= y) && (row.rating <= 0 ==> y <= x)
  {
    NewestRowAdds(row, stored, query, e);
    RowContribution(row, query, e);
  }

  /** How one new row moves the shift of document `e`. */
  lemma OneVoteShifts(row: Row, stored: seq<Row>, query: string, before: map<DocId, Signal>,
                      after: map<DocId, Signal>, squash: real -> real, strength: real, d: DocId, e: DocId)
    requires IsSquash(squash) && strength >= 0.0 && |stored| < MAX_ROWS && NamesOnly(row, d)
    requires SignalsMatch(before, Window(stored), query) && SignalsMatch(after, Window([row] + stored), query)
    ensures var x, y := Shift(before, squash, strength, e), Shift(after, squash, strength, e);
            (e != d ==> x == y) && (row.rating >= 0 ==> x <= y) && (row.rating <= 0 ==> y <= x)
  {
    OneVoteContributes(row, stored, query, d, e);
    var rows, rows' := Window(stored), Window([row] + stored);
    if Contribution(rows, query, e) <= Contribution(rows', query, e) {
      ShiftsFollowScores(rows, rows', query, before, after, squash, strength, e, e);
    }
    if Contribution(rows', query, e) <= Contribution(rows, query, e) {
      ShiftsFollowScores(rows', rows, query, after, before, squash, strength, e, e);
    }
  }

  /** A higher score, on whichever rows and for whichever document, shifts no less. */
  lemma ShiftsFollowScores(rows: seq<Row>, rows': seq<Row>, query: string, s: map<DocId, Signal>,
                           s': map<DocId, Signal>, squash: real -> real, strength: real, d: DocId, e: DocId)
    requires IsSquash(squash) && strength >= 0.0
    requires SignalsMatch(s, rows, query) && SignalsMatch(s', rows', query)
    requires Contribution(rows, query, d) <= Contribution(rows', query, e)
    ensures Shift(s, squash, strength, d) <= Shift(s', squash, strength, e)
  {
    ShiftFromRows(rows, query, s, squash, strength, d);
    ShiftFromRows(rows', query, s', squash, strength, e);
    ScaledSquashIsMonotone(squash, strength, Contribution(rows, query, d), Contribution(rows', query, e));
  }

  lemma ScaledSquashIsMonotone(squash: real -> real, strength: real, x: real, y: real)
    requires IsSquash(squash) && strength >= 0.0 && x <= y
    ensures Scale(strength, squash(x)) <= Scale(strength, squash(y))
  {
    assert squash(x) <= squash(y);
    ScaleOrder(strength, squash(x), squash(y));
  }

  /** End to end, while the window has room: storing one upvote that names only
      `d` never worsens the final position of a chunk of `d`, and storing one
      downvote never improves it, whatever else is stored. */
  lemma OneVoteMovesItsDocumentItsWay(row: Row, stored: seq<Row>, query: string, docs: seq<DocId>,
                                      before: map<DocId, Signal>, after: map<DocId, Signal>,
                                      squash: real -> real, strength: real, d: DocId, i: nat)
    requires IsSquash(squash) && strength >= 0.0 && |stored| < MAX_ROWS && NamesOnly(row, d)
    requires SignalsMatch(before, Window(stored), query) && SignalsMatch(after, Window([row] + stored), query)
    requires i < |docs| && docs[i] == d
    ensures var p, p' := Position(Keys(docs, before, squash, strength), i), Position(Keys(docs, after, squash, strength), i);
            && (row.rating >= 0 ==> p' <= p)
            && (row.rating <= 0 ==> p <= p')
  {
    forall e
      ensures e != d ==> Shift(before, squash, strength, e) == Shift(after, squash, strength, e)
    {
      OneVoteShifts(row, stored, query, before, after, squash, strength, d, e);
    }
    OneVoteShifts(row, stored, query, before, after, squash, strength, d, d);
    if row.rating >= 0 {
      BestGainNeverFalls(docs, before, after, squash, strength, d, i);
    }
    if row.rating <= 0 {
      BestGainNeverFalls(docs, after, before, squash, strength, d, i);
    }
  }

  lemma NetOfOne(row: Row, only: Option<string>, e: DocId)
    ensures Net([row], only, e) == RowNet(row, only, e)
  {
    assert [row][..0] == [];
  }

  lemma WeightsKeepSign(g: int, q: int)
    ensures g >= 0 && q >= 0 ==> RawScore(Signal(g, q)) >= 0.0
    ensures g <= 0 && q <= 0 ==> RawScore(Signal(g, q)) <= 0.0
  {
  }

  lemma RowContribution(row: Row, query: string, e: DocId)
    ensures row.rating >= 0 ==> Contribution([row], query, e) >= 0.0
    ensures row.rating <= 0 ==> Contribution([row], query, e) <= 0.0
    ensures Uuid(e) !in row.documentIds ==> Contribution([row], query, e) == 0.0
  {
    NetOfOne(row, None, e);
    NetOfOne(row, Some(query), e);
    VotesSign(row.rating, row.documentIds, e);
    WeightsKeepSign(RowNet(row, None, e), RowNet(row, Some(query), e));
    if Uuid(e) !in row.documentIds {
      NoVotes(row.rating, row.documentIds, e);
    }
  }

  lemma WeightsOfVote(g: int, q: int)
    requires g == q == -1
    ensures RawScore(Signal(g, q)) == -0.6
  {
  }

  lemma {:induction false} DownvoteWeighs(ids: seq<RawId>, query: string, d: DocId)
    requires multiset(ids)[Uuid(d)] == 1
    ensures Contribution([Row(-1, query, ids)], query, d) == -0.6
  {
    OneRowAdds(-1, query, ids, d, query);
    WeightsOfVote(Net([Row(-1, query, ids)], None, d), Net([Row(-1, query, ids)], Some(query), d));
  }

  /** With room in the window, a downvote naming a document once and asked about this
      question lowers the document's score by exactly six tenths. */
  lemma {:induction false} DownvoteLowersBy(stored: seq<Row>, ids: seq<RawId>, query: string, d: DocId)
    requires |stored| < 4000 && multiset(ids)[Uuid(d)] == 1
    ensures Contribution(Window([Row(-1, query, ids)] + stored), query, d) == Contribution(Window(stored), query, d) - 0.6
  {
    NewestRowAdds(Row(-1, query, ids), stored, query, d);
    DownvoteWeighs(ids, query, d);
  }

  /** A single downvote moves its document behind the next one; tanh meets the
      condition on `squash`. */
  lemma {:induction false} DownvoteMovesDown(squash: real -> real, d: DocId, other: DocId, query: string,
                                             signals: map<DocId, Signal>)
    requires IsSquash(squash) && squash(-0.6) < -0.5 && d != other
    requires SignalsMatch(signals, Window([Row(-1, query, [Uuid(d)])]), query)
    ensures Position(Keys([d, other], map[], squash, NUDGE_STRENGTH), 0) == 0
    ensures Position(Keys([d, other], signals, squash, NUDGE_STRENGTH), 0) == 1
  {
    var rows := [Row(-1, query, [Uuid(d)])];
    assert Window(rows) == rows;
    DownvoteWeighs([Uuid(d)], query, d);
    OneRowAdds(-1, query, [Uuid(d)], other, query);
    ShiftFromRows(rows, query, signals, squash, NUDGE_STRENGTH, d);
    ShiftFromRows(rows, query, signals, squash, NUDGE_STRENGTH, other);
    PairPositions(d, other, signals, squash);
    PairPositions(d, other, map[], squash);
  }

  /** Once the window is full a new row is an exchange: the oldest row's votes
      leave as the new ones arrive. A document's raw score therefore falls on an
      upvote exactly when the evicted row had given it more. */
  lemma FullWindowExchanges(row: Row, stored: seq<Row>, query: string, d: DocId)
    requires |stored| >= MAX_ROWS
    ensures var x, y := Contribution(Window(stored), query, d), Contribution(Window([row] + stored), query, d);
            var gain, loss := Contribution([row], query, d), Contribution([stored[MAX_ROWS - 1]], query, d);
            y == x + gain - loss && (y >= x <==> gain >= loss)
  {
    var kept, evicted := stored[..MAX_ROWS - 1], stored[MAX_ROWS - 1];
    assert Window([row] + stored) == [row] + kept && Window(stored) == kept + [evicted];
    NetIsAdditive([row], kept, None, d);
    NetIsAdditive([row], kept, Some(query), d);
    NetIsAdditive(kept, [evicted], None, d);
    NetIsAdditive(kept, [evicted], Some(query), d);
  }

  // ---- When any change of the window is safe for a document ----------------

  /** `d` is sheltered from a change of the rows when its own score does not fall and
      every other document whose score rises does so inside the rise of `d`. */
  ghost predicate Sheltered(rows: seq<Row>, rows': seq<Row>, query: string, d: DocId) {
    && Contribution(rows, query, d) <= Contribution(rows', query, d)
    && forall e :: !Exposes(rows, rows', query, d, e)
  }

  /** `e` rises, from below where `d` was or to above where `d` gets. */
  ghost predicate Exposes(rows: seq<Row>, rows': seq<Row>, query: string, d: DocId, e: DocId) {
    var x, y := Contribution(rows, query, d), Contribution(rows', query, d);
    var u, v := Contribution(rows, query, e), Contribution(rows', query, e);
    e != d && u < v && (u < x || y < v)
  }

  lemma ShelteredGainsMost(rows: seq<Row>, rows': seq<Row>, query: string, before: map<DocId, Signal>,
                           after: map<DocId, Signal>, squash: real -> real, strength: real, d: DocId, e: DocId)
    requires IsSquash(squash) && strength >= 0.0
    requires SignalsMatch(before, rows, query) && SignalsMatch(after, rows', query)
    requires Sheltered(rows, rows', query, d)
    ensures Shift(after, squash, strength, e) - Shift(before, squash, strength, e)
         <= Shift(after, squash, strength, d) - Shift(before, squash, strength, d)
  {
    assert !Exposes(rows, rows', query, d, e);
    ShiftsFollowScores(rows, rows', query, before, after, squash, strength, d, d);
    if Contribution(rows', query, e) <= Contribution(rows, query, e) {
      ShiftsFollowScores(rows', rows, query, after, before, squash, strength, e, e);
    } else if e != d {
      ShiftsFollowScores(rows, rows, query, before, before, squash, strength, d, e);
      ShiftsFollowScores(rows', rows', query, after, after, squash, strength, e, d);
    }
  }

  /** The sufficient half, at every strength: a sheltered document's hits never fall. */
  lemma ShelteredNeverFalls(rows: seq<Row>, rows': seq<Row>, query: string, before: map<DocId, Signal>,
                            after: map<DocId, Signal>, squash: real -> real, strength: real,
                            docs: seq<DocId>, d: DocId, i: nat)
    requires IsSquash(squash) && strength >= 0.0
    requires SignalsMatch(before, rows, query) && SignalsMatch(after, rows', query)
    requires Sheltered(rows, rows', query, d) && i < |docs| && docs[i] == d
    ensures Position(Keys(docs, after, squash, strength), i) <= Position(Keys(docs, before, squash, strength), i)
  {
    forall e
      ensures Shift(after, squash, strength, e) - Shift(before, squash, strength, e)
           <= Shift(after, squash, strength, d) - Shift(before, squash, strength, d)
    {
      ShelteredGainsMost(rows, rows', query, before, after, squash, strength, d, e);
    }
    BestGainNeverFalls(docs, before, after, squash, strength, d, i);
  }

  /** A squash that jumps by one at `t` and nowhere else. */
  function StepAt(t: real): real -> real {
    x => if t > 0.0 then (if x >= t then 1.0 else 0.0) else if x < t then -1.0 else 0.0
  }

  lemma StepIsSquash(t: real)
    ensures IsSquash(StepAt(t))
  {
  }

  lemma FreshId(taken: set<DocId>) returns (z: DocId)
    ensures z !in taken
  {
    var n := LongestId(taken);
    z := seq(n + 1, _ => 'a');
  }

  lemma LongestId(taken: set<DocId>) returns (n: nat)
    ensures forall e :: e in taken ==> |e| <= n
  {
    if e :| e in taken {
      var m := LongestId(taken - {e});
      n := Max(m, |e|);
    } else {
      n := 0;
    }
  }

  /** Of two hits the second goes first exactly when it is pulled more than one place further. */
  lemma PairPositions(a: DocId, b: DocId, signals: map<DocId, Signal>, squash: real -> real)
    ensures var swapped := Shift(signals, squash, NUDGE_STRENGTH, b) - Shift(signals, squash, NUDGE_STRENGTH, a) > 1.0;
            && Position(Keys([a, b], signals, squash, NUDGE_STRENGTH), 0) == (if swapped then 1 else 0)
            && Position(Keys([a, b], signals, squash, NUDGE_STRENGTH), 1) == (if swapped then 0 else 1)
  {
    var keys := Keys([a, b], signals, squash, NUDGE_STRENGTH);
    if Shift(signals, squash, NUDGE_STRENGTH, b) - Shift(signals, squash, NUDGE_STRENGTH, a) > 1.0 {
      assert Ahead(keys, 0) == {1} && Ahead(keys, 1) == {};
    } else {
      assert Ahead(keys, 0) == {} && Ahead(keys, 1) == {0};
    }
  }

  /** Hit `i` of `docs` is a chunk of `d` and the change of signals lowers it. */
  ghost predicate Falls(before: map<DocId, Signal>, after: map<DocId, Signal>, squash: real -> real,
                        docs: seq<DocId>, d: DocId, i: nat) {
    && i < |docs| && docs[i] == d
    && Position(Keys(docs, before, squash, NUDGE_STRENGTH), i) < Position(Keys(docs, after, squash, NUDGE_STRENGTH), i)
  }

  lemma FallingScoreFalls(rows: seq<Row>, rows': seq<Row>, query: string, before: map<DocId, Signal>,
                          after: map<DocId, Signal>, d: DocId)
    returns (t: real, docs: seq<DocId>, i: nat)
    requires SignalsMatch(before, rows, query) && SignalsMatch(after, rows', query)
    requires Contribution(rows', query, d) < Contribution(rows, query, d)
    ensures Falls(before, after, StepAt(t), docs, d, i)
  {
    var z := FreshId(before.Keys + after.Keys);
    t := Contribution(rows, query, d);
    StepIsSquash(t);
    ShiftFromRows(rows, query, before, StepAt(t), NUDGE_STRENGTH, d);
    ShiftFromRows(rows', query, after, StepAt(t), NUDGE_STRENGTH, d);
    if t > 0.0 {
      docs, i := [z, d], 1;
      PairPositions(z, d, before, StepAt(t));
      PairPositions(z, d, after, StepAt(t));
    } else {
      docs, i := [d, z], 0;
      PairPositions(d, z, before, StepAt(t));
      PairPositions(d, z, after, StepAt(t));
    }
  }

  lemma OvertakenFalls(rows: seq<Row>, rows': seq<Row>, query: string, before: map<DocId, Signal>,
                       after: map<DocId, Signal>, d: DocId, e: DocId)
    returns (t: real, docs: seq<DocId>, i: nat)
    requires SignalsMatch(before, rows, query) && SignalsMatch(after, rows', query)
    requires Contribution(rows, query, d) <= Contribution(rows', query, d) && Exposes(rows, rows', query, d, e)
    ensures Falls(before, after, StepAt(t), docs, d, i)
  {
    var x, v := Contribution(rows, query, d), Contribution(rows', query, e);
    var above := Contribution(rows', query, d) < v;
    t := if above || v <= x then v else x;
    StepIsSquash(t);
    ShiftFromRows(rows, query, before, StepAt(t), NUDGE_STRENGTH, d);
    ShiftFromRows(rows', query, after, StepAt(t), NUDGE_STRENGTH, d);
    ShiftFromRows(rows, query, before, StepAt(t), NUDGE_STRENGTH, e);
    ShiftFromRows(rows', query, after, StepAt(t), NUDGE_STRENGTH, e);
    if above {
      docs, i := [d, e], 0;
      PairPositions(d, e, before, StepAt(t));
      PairPositions(d, e, after, StepAt(t));
    } else {
      docs, i := [e, d], 1;
      PairPositions(e, d, before, StepAt(t));
      PairPositions(e, d, after, StepAt(t));
    }
  }

  /** However the rows change, no squash and no list of hits lets a hit of `d` fall
      if and only if `d` is sheltered from the change. */
  lemma NeverFallsIffSheltered(rows: seq<Row>, rows': seq<Row>, query: string, before: map<DocId, Signal>,
                               after: map<DocId, Signal>, d: DocId)
    requires SignalsMatch(before, rows, query) && SignalsMatch(after, rows', query)
    ensures (forall squash: real -> real, docs, i: nat :: IsSquash(squash) ==> !Falls(before, after, squash, docs, d, i))
            <==> Sheltered(rows, rows', query, d)
  {
    if Sheltered(rows, rows', query, d) {
      forall squash: real -> real, docs, i: nat | IsSquash(squash) && i < |docs| && docs[i] == d
        ensures !Falls(before, after, squash, docs, d, i)
      {
        ShelteredNeverFalls(rows, rows', query, before, after, squash, NUDGE_STRENGTH, docs, d, i);
      }
    } else {
      var t, docs, i;
      if Contribution(rows', query, d) < Contribution(rows, query, d) {
        t, docs, i := FallingScoreFalls(rows, rows', query, before, after, d);
      } else {
        var e :| Exposes(rows, rows', query, d, e);
        t, docs, i := OvertakenFalls(rows, rows', query, before, after, d, e);
      }
      StepIsSquash(t);
    }
  }

  ghost function Gain(row: Row, query: string, e: DocId): real {
    Contribution([row], query, e)
  }

  /** With a full window the condition is read off the arriving and the evicted row:
      `d` gains at least what it loses, and each other document that gains more than
      it loses starts at or above `d` and ends at or below it. */
  lemma FullWindowKeepsRankIff(row: Row, stored: seq<Row>, query: string, before: map<DocId, Signal>,
                               after: map<DocId, Signal>, d: DocId)
    requires |stored| >= MAX_ROWS
    requires SignalsMatch(before, Window(stored), query) && SignalsMatch(after, Window([row] + stored), query)
    ensures var evicted, x := stored[MAX_ROWS - 1], Contribution(Window(stored), query, d);
            var change := Gain(row, query, d) - Gain(evicted, query, d);
            (forall squash: real -> real, docs, i: nat :: IsSquash(squash) ==> !Falls(before, after, squash, docs, d, i))
            <==> (change >= 0.0
                  && forall e :: e != d && Gain(row, query, e) > Gain(evicted, query, e) ==>
                       x <= Contribution(Window(stored), query, e)
                       && Contribution(Window(stored), query, e) + Gain(row, query, e) - Gain(evicted, query, e)
                          <= x + change)
  {
    NeverFallsIffSheltered(Window(stored), Window([row] + stored), query, before, after, d);
    FullWindowExchanges(row, stored, query, d);
    forall e
      ensures Contribution(Window([row] + stored), query, e)
           == Contribution(Window(stored), query, e) + Gain(row, query, e) - Gain(stored[MAX_ROWS - 1], query, e)
    {
      FullWindowExchanges(row, stored, query, e);
    }
    assert forall e :: Exposes(Window(stored), Window([row] + stored), query, d, e) <==>
      e != d && Gain(row, query, e) > Gain(stored[MAX_ROWS - 1], query, e)
      && !(Contribution(Window(stored), query, d) <= Contribution(Window(stored), query, e)
           && Contribution(Window([row] + stored), query, e) <= Contribution(Window([row] + stored), query, d));
  }

  /** For a vote that names `d` alone: it never lowers `d` if it weighs at least what
      the evicted row gave `d` and the evicted row was no vote against another
      document. */
  lemma FullWindowVoteIsSafe(row: Row, stored: seq<Row>, query: string, before: map<DocId, Signal>,
                             after: map<DocId, Signal>, squash: real -> real, strength: real,
                             docs: seq<DocId>, d: DocId, i: nat)
    requires IsSquash(squash) && strength >= 0.0 && |stored| >= MAX_ROWS && NamesOnly(row, d)
    requires SignalsMatch(before, Window(stored), query) && SignalsMatch(after, Window([row] + stored), query)
    requires Gain(row, query, d) >= Gain(stored[MAX_ROWS - 1], query, d)
    requires stored[MAX_ROWS - 1].rating >= 0 || NamesOnly(stored[MAX_ROWS - 1], d)
    requires i < |docs| && docs[i] == d
    ensures Position(Keys(docs, after, squash, strength), i) <= Position(Keys(docs, before, squash, strength), i)
  {
    FullWindowExchanges(row, stored, query, d);
    forall e
      ensures !Exposes(Window(stored), Window([row] + stored), query, d, e)
    {
      FullWindowExchanges(row, stored, query, e);
      RowContribution(row, query, e);
      RowContribution(stored[MAX_ROWS - 1], query, e);
    }
    ShelteredNeverFalls(Window(stored), Window([row] + stored), query, before, after, squash, strength, docs, d, i);
  }

  lemma SoleVote(blanks: seq<Row>, row: Row, query: string, e: DocId)
    requires !Mentions(blanks, e)
    ensures Contribution(blanks + [row], query, e) == Contribution([row], query, e)
    ensures Contribution([row] + blanks, query, e) == Contribution([row], query, e)
  {
    UnmentionedIsZero(blanks, None, e);
    UnmentionedIsZero(blanks, Some(query), e);
    NetIsAdditive(blanks, [row], None, e);
    NetIsAdditive(blanks, [row], Some(query), e);
    NetIsAdditive([row], blanks, None, e);
    NetIsAdditive([row], blanks, Some(query), e);
  }

  /** So with a full window an upvote can lower the document it names: here the
      evicted row was an upvote for this very question, the new one is not. The
      two conditions on `squash` hold of tanh. */
  lemma UpvoteOnFullWindowCanLower(blanks: seq<Row>, squash: real -> real, d: DocId, other: DocId,
                                   query: string, another: string,
                                   before: map<DocId, Signal>, after: map<DocId, Signal>)
    requires IsSquash(squash) && squash(0.6) > 0.5 && squash(0.15) < 0.5 && d != other && query != another
    requires |blanks| == 3999 && forall e :: !Mentions(blanks, e)
    requires var stored := blanks + [Row(1, query, [Uuid(d)])];
             && SignalsMatch(before, Window(stored), query)
             && SignalsMatch(after, Window([Row(1, another, [Uuid(d)])] + stored), query)
    ensures Position(Keys([other, d], before, squash, NUDGE_STRENGTH), 1) == 0
    ensures Position(Keys([other, d], after, squash, NUDGE_STRENGTH), 1) == 1
  {
    var oldest, newest := Row(1, query, [Uuid(d)]), Row(1, another, [Uuid(d)]);
    var stored := blanks + [oldest];
    assert Window(stored) == stored && Window([newest] + stored) == [newest] + blanks;
    forall e | e in {d, other}
      ensures Contribution(stored, query, e) == if e == d then 0.6 else 0.0
      ensures Contribution([newest] + blanks, query, e) == if e == d then 0.15 else 0.0
    {
      SoleVote(blanks, oldest, query, e);
      SoleVote(blanks, newest, query, e);
      assert [Uuid(d)][..0] == [] && [oldest][..0] == [] && [newest][..0] == [];
      assert Votes(1, [Uuid(d)], e) == if e == d then 1 else 0;
      assert Net([oldest], None, e) == Net([oldest], Some(query), e) == Votes(1, [Uuid(d)], e);
      assert Net([newest], None, e) == Votes(1, [Uuid(d)], e) && Net([newest], Some(query), e) == 0;
    }
    ShiftFromRows(stored, query, before, squash, NUDGE_STRENGTH, d);
    ShiftFromRows(stored, query, before, squash, NUDGE_STRENGTH, other);
    ShiftFromRows([newest] + blanks, query, after, squash, NUDGE_STRENGTH, d);
    ShiftFromRows([newest] + blanks, query, after, squash, NUDGE_STRENGTH, other);
    assert Ahead(Keys([other, d], before, squash, NUDGE_STRENGTH), 1) == {};
    assert Ahead(Keys([other, d], after, squash, NUDGE_STRENGTH), 1) == {0};
  }
}
