/** Feed polling: fetch, drop what is already stored, notify. */
module Watcher {
  import opened Prelude

  datatype Event = Event(regulator: string, externalId: string, title: string)

  type Key = (string, string)

  /** None is a feed whose fetch raised. */
  datatype Feed = Feed(regulator: string, events: Option<seq<Event>>)

  /** The database notifier inserts what is absent, finds no tenant and skips, or
      raises; any other notifier only succeeds or raises. */
  datatype Notifier = Inserts | NoTenant | Other | Raises

  function KeyOf(e: Event): Key {
    (e.regulator, e.externalId)
  }

  function KeysOf(events: seq<Event>): set<Key> {
    set e | e in events :: KeyOf(e)
  }

  function FromRegulator(events: seq<Event>, regulator: string): seq<Event> {
    if events == [] then []
    else
      var last := events[|events| - 1];
      FromRegulator(events[..|events| - 1], regulator) + if last.regulator == regulator then [last] else []
  }

  /** The events whose key is not stored, in order. */
  function Unseen(events: seq<Event>, stored: set<Key>): seq<Event> {
    if events == [] then []
    else
      var last := events[|events| - 1];
      Unseen(events[..|events| - 1], stored) + if KeyOf(last) in stored then [] else [last]
  }

  /** Regulators in order of first appearance. */
  function Regulators(events: seq<Event>): seq<string> {
    if events == [] then []
    else
      var before, r := Regulators(events[..|events| - 1]), events[|events| - 1].regulator;
      if r in before then before else before + [r]
  }

  /** Group by group, what is new. */
  function Gather(regulators: seq<string>, events: seq<Event>, stored: set<Key>): seq<Event> {
    if regulators == [] then []
    else
      var n := |regulators| - 1;
      Gather(regulators[..n], events, stored) + Unseen(FromRegulator(events, regulators[n]), stored)
  }

  function NewEvents(events: seq<Event>, stored: set<Key>): seq<Event> {
    Gather(Regulators(events), events, stored)
  }

  // ---- Dedup as it runs ---------------------------------------------------

  function GroupOf(groups: map<string, seq<Event>>, r: string): seq<Event> {
    if r in groups then groups[r] else []
  }

  lemma {:induction false} FromRegulatorOneMore(events: seq<Event>, i: nat, r: string)
    requires i < |events|
    ensures FromRegulator(events[..i + 1], r)
         == FromRegulator(events[..i], r) + if events[i].regulator == r then [events[i]] else []
  {
    assert events[..i + 1][..i] == events[..i];
  }

  /** `by_reg`: an insertion-ordered dictionary of groups. */
  method GroupByRegulator(events: seq<Event>) returns (order: seq<string>, groups: map<string, seq<Event>>)
    ensures order == Regulators(events)
    ensures forall r :: r in order <==> r in groups
    ensures forall r :: r in groups ==> groups[r] == FromRegulator(events, r)
  {
    order, groups := [], map[];
    for i := 0 to |events|
      invariant order == Regulators(events[..i])
      invariant forall r :: r in order <==> r in groups
      invariant forall r :: GroupOf(groups, r) == FromRegulator(events[..i], r)
    {
      var ev := events[i];
      assert events[..i + 1][..i] == events[..i];
      if ev.regulator !in groups {
        order := order + [ev.regulator];
        groups := groups[ev.regulator := []];
      }
      groups := groups[ev.regulator := groups[ev.regulator] + [ev]];
      forall r
        ensures GroupOf(groups, r) == FromRegulator(events[..i + 1], r)
      {
        FromRegulatorOneMore(events, i, r);
      }
    }
    assert events[..|events|] == events;
    assert forall r :: r in groups ==> groups[r] == GroupOf(groups, r);
  }

  method AppendUnseen(out: seq<Event>, group: seq<Event>, stored: set<Key>) returns (r: seq<Event>)
    ensures r == out + Unseen(group, stored)
  {
    r := out;
    for i := 0 to |group|
      invariant r == out + Unseen(group[..i], stored)
    {
      assert group[..i + 1][..i] == group[..i];
      if KeyOf(group[i]) !in stored {
        r := r + [group[i]];
      }
    }
    assert group[..|group|] == group;
  }

  lemma {:induction false} GatherOneMore(regulators: seq<string>, i: nat, events: seq<Event>, stored: set<Key>)
    requires i < |regulators|
    ensures Gather(regulators[..i + 1], events, stored)
         == Gather(regulators[..i], events, stored) + Unseen(FromRegulator(events, regulators[i]), stored)
  {
    var upTo := regulators[..i + 1];
    assert upTo[..i] == regulators[..i] && upTo[i] == regulators[i];
  }

  method FilterNew(events: seq<Event>, stored: set<Key>) returns (unseen: seq<Event>)
    ensures unseen == NewEvents(events, stored)
  {
    if events == [] {
      return [];
    }
    var order, groups := GroupByRegulator(events);
    unseen := [];
    for i := 0 to |order|
      invariant unseen == Gather(order[..i], events, stored)
    {
      assert order[i] in order;
      GatherOneMore(order, i, events, stored);
      unseen := AppendUnseen(unseen, groups[order[i]], stored);
    }
    assert order[..|order|] == order;
  }

  // ---- What dedup returns -------------------------------------------------

  lemma {:induction false} RegulatorsAreDistinct(events: seq<Event>)
    ensures Distinct(Regulators(events))
    ensures forall e :: e in events ==> e.regulator in Regulators(events)
  {
    if events != [] {
      var n := |events| - 1;
      RegulatorsAreDistinct(events[..n]);
      assert forall e :: e in events <==> e in events[..n] || e == events[n];
    }
  }

  lemma {:induction false} UnseenCount(events: seq<Event>, stored: set<Key>, e: Event)
    ensures multiset(Unseen(events, stored))[e] == if KeyOf(e) in stored then 0 else multiset(events)[e]
  {
    if events != [] {
      var front, last := events[..|events| - 1], events[|events| - 1];
      UnseenCount(front, stored, e);
      MultisetFront(events);
      assert last in multiset(events);
    }
  }

  lemma {:induction false} FromRegulatorCount(events: seq<Event>, r: string, e: Event)
    ensures multiset(FromRegulator(events, r))[e] == if e.regulator == r then multiset(events)[e] else 0
  {
    if events != [] {
      var front, last := events[..|events| - 1], events[|events| - 1];
      FromRegulatorCount(front, r, e);
      MultisetFront(events);
      assert last in multiset(events);
    }
  }

  lemma {:induction false} GatherCount(regulators: seq<string>, events: seq<Event>, stored: set<Key>, e: Event)
    requires Distinct(regulators)
    ensures multiset(Gather(regulators, events, stored))[e]
         == if e.regulator in regulators && KeyOf(e) !in stored then multiset(events)[e] else 0
  {
    if regulators != [] {
      var n := |regulators| - 1;
      var q := regulators[n];
      GatherCount(regulators[..n], events, stored, e);
      UnseenCount(FromRegulator(events, q), stored, e);
      FromRegulatorCount(events, q, e);
      assert e.regulator in regulators <==> e.regulator in regulators[..n] || e.regulator == q;
    }
  }

  /** A poll's new list is a permutation of the fetched events not yet stored: each
      with its full multiplicity, for duplicates within a batch are not dropped. */
  lemma {:induction false} NewIsPermutationOfUnseen(events: seq<Event>, stored: set<Key>)
    ensures multiset(NewEvents(events, stored)) == multiset(Unseen(events, stored))
    ensures forall e :: multiset(NewEvents(events, stored))[e]
                     == if (e.regulator, e.externalId) in stored then 0 else multiset(events)[e]
  {
    RegulatorsAreDistinct(events);
    forall e
      ensures multiset(NewEvents(events, stored))[e] == multiset(Unseen(events, stored))[e]
      ensures multiset(NewEvents(events, stored))[e] == if KeyOf(e) in stored then 0 else multiset(events)[e]
    {
      GatherCount(Regulators(events), events, stored, e);
      UnseenCount(events, stored, e);
      assert e in multiset(events) ==> e in events;
    }
  }

  lemma {:induction false} FromRegulatorSplits(a: seq<Event>, b: seq<Event>, r: string)
    ensures FromRegulator(a + b, r) == FromRegulator(a, r) + FromRegulator(b, r)
  {
    if b == [] {
      assert a + b == a;
    } else {
      assert (a + b)[..|a + b| - 1] == a + b[..|b| - 1];
      FromRegulatorSplits(a, b[..|b| - 1], r);
    }
  }

  lemma {:induction false} GroupIsPure(group: seq<Event>, q: string, r: string, stored: set<Key>)
    requires forall i :: 0 <= i < |group| ==> group[i].regulator == q
    ensures FromRegulator(Unseen(group, stored), r) == if q == r then Unseen(group, stored) else []
  {
    if group != [] {
      var n := |group| - 1;
      var u := Unseen(group[..n], stored);
      GroupIsPure(group[..n], q, r, stored);
      if KeyOf(group[n]) in stored {
        assert Unseen(group, stored) == u;
      } else {
        assert Unseen(group, stored) == u + [group[n]] && (u + [group[n]])[..|u|] == u;
      }
    }
  }

  lemma {:induction false} GroupsAreUniform(events: seq<Event>, q: string)
    ensures forall i :: 0 <= i < |FromRegulator(events, q)| ==> FromRegulator(events, q)[i].regulator == q
  {
    if events != [] {
      GroupsAreUniform(events[..|events| - 1], q);
    }
  }

  lemma {:induction false} GroupInOrder(events: seq<Event>, q: string, r: string, stored: set<Key>)
    ensures FromRegulator(Unseen(FromRegulator(events, q), stored), r)
         == if q == r then Unseen(FromRegulator(events, r), stored) else []
  {
    GroupsAreUniform(events, q);
    GroupIsPure(FromRegulator(events, q), q, r, stored);
  }

  lemma {:induction false} GatherKeepsOrder(regulators: seq<string>, events: seq<Event>, stored: set<Key>, r: string)
    requires Distinct(regulators)
    ensures FromRegulator(Gather(regulators, events, stored), r)
         == if r in regulators then Unseen(FromRegulator(events, r), stored) else []
  {
    if regulators != [] {
      var n := |regulators| - 1;
      var q := regulators[n];
      var before, group := Gather(regulators[..n], events, stored), Unseen(FromRegulator(events, q), stored);
      GatherKeepsOrder(regulators[..n], events, stored, r);
      FromRegulatorSplits(before, group, r);
      GroupInOrder(events, q, r, stored);
      assert r in regulators <==> r in regulators[..n] || r == q;
    }
  }

  lemma {:induction false} NoneFromAbsent(events: seq<Event>, r: string)
    requires forall e :: e in events ==> e.regulator != r
    ensures FromRegulator(events, r) == []
  {
    if events != [] {
      NoneFromAbsent(events[..|events| - 1], r);
    }
  }

  /** Within a regulator the new events keep the order they were fetched in. */
  lemma NewKeepsFetchOrder(events: seq<Event>, stored: set<Key>, r: string)
    ensures FromRegulator(NewEvents(events, stored), r) == Unseen(FromRegulator(events, r), stored)
  {
    RegulatorsAreDistinct(events);
    GatherKeepsOrder(Regulators(events), events, stored, r);
    if r !in Regulators(events) {
      NoneFromAbsent(events, r);
    }
  }

  ghost function Of(events: seq<Event>, r: string): set<nat> {
    set i: nat | i < |events| && events[i].regulator == r
  }

  ghost function UnseenOf(events: seq<Event>, stored: set<Key>, r: string): set<nat> {
    set i: nat | i < |events| && events[i].regulator == r && (events[i].regulator, events[i].externalId) !in stored
  }

  lemma {:induction false} OfOneMore(front: seq<Event>, last: Event, stored: set<Key>, r: string)
    ensures Of(front + [last], r) == Of(front, r) + if last.regulator == r then {|front|} else {}
    ensures UnseenOf(front + [last], stored, r)
         == UnseenOf(front, stored, r) + if last.regulator == r && KeyOf(last) !in stored then {|front|} else {}
  {
  }

  lemma {:induction false} UnseenGroupOneMore(front: seq<Event>, last: Event, stored: set<Key>, r: string)
    ensures FromRegulator(front + [last], r) == FromRegulator(front, r) + if last.regulator == r then [last] else []
    ensures Unseen(FromRegulator(front + [last], r), stored)
         == Unseen(FromRegulator(front, r), stored) + if last.regulator == r && KeyOf(last) !in stored then [last] else []
  {
    var group := FromRegulator(front, r);
    assert (front + [last])[..|front|] == front;
    if last.regulator == r {
      assert (group + [last])[..|group|] == group;
    } else {
      Nothing(group);
      Nothing(Unseen(group, stored));
    }
  }

  lemma {:induction false} GroupsSelect(events: seq<Event>, stored: set<Key>, r: string)
    ensures Selection(FromRegulator(events, r), events, Of(events, r))
    ensures Selection(Unseen(FromRegulator(events, r), stored), events, UnseenOf(events, stored, r))
  {
    if events == [] {
      SelectNothing<Event>();
      assert Of(events, r) == {} && UnseenOf(events, stored, r) == {};
    } else {
      var front, last := events[..|events| - 1], events[|events| - 1];
      GroupsSelect(front, stored, r);
      Rejoin(events);
      OfOneMore(front, last, stored, r);
      UnseenGroupOneMore(front, last, stored, r);
      SelectNext(FromRegulator(front, r), front, Of(front, r), last, last.regulator == r);
      SelectNext(Unseen(FromRegulator(front, r), stored), front, UnseenOf(front, stored, r), last,
                 last.regulator == r && KeyOf(last) !in stored);
    }
  }

  /** What the new list holds of one regulator stands in the fetched list, in the
      same order, exactly where that regulator's events are not stored yet. */
  lemma {:induction false} NewSelectsFetched(events: seq<Event>, stored: set<Key>, r: string, mine: seq<Event>)
    requires Selection(mine, NewEvents(events, stored), Of(NewEvents(events, stored), r))
    ensures Selection(mine, events, UnseenOf(events, stored, r))
  {
    var batch := NewEvents(events, stored);
    GroupsSelect(batch, stored, r);
    SelectionIsUnique(mine, FromRegulator(batch, r), batch, Of(batch, r));
    NewKeepsFetchOrder(events, stored, r);
    GroupsSelect(events, stored, r);
  }

  /** Every event of q comes with, or after, some event of p. */
  ghost predicate Precedes(events: seq<Event>, p: string, q: string) {
    forall b :: 0 <= b < |events| && events[b].regulator == q ==> SeenBy(events, p, b)
  }

  ghost predicate SeenBy(events: seq<Event>, p: string, b: nat) {
    exists a :: 0 <= a < |events| && a <= b && events[a].regulator == p
  }

  lemma SeenByOneMore(front: seq<Event>, last: Event, p: string, b: nat)
    ensures SeenBy(front, p, b) ==> SeenBy(front + [last], p, b)
  {
    if SeenBy(front, p, b) {
      var a :| 0 <= a < |front| && a <= b && front[a].regulator == p;
      assert (front + [last])[a].regulator == p;
    }
  }

  lemma {:induction false} PrecedesOneMore(front: seq<Event>, last: Event, p: string, q: string)
    requires Precedes(front, p, q) && p in Regulators(front)
    ensures Precedes(front + [last], p, q)
  {
    RegulatorsAppear(front, p);
    var all := front + [last];
    forall b | 0 <= b < |all| && all[b].regulator == q
      ensures SeenBy(all, p, b)
    {
      SeenByOneMore(front, last, p, b);
      if b < |front| {
        assert front[b].regulator == q;
      }
    }
  }

  lemma {:induction false} RegulatorsAppear(events: seq<Event>, p: string)
    requires p in Regulators(events)
    ensures SeenBy(events, p, |events|)
  {
    var n := |events| - 1;
    if events[n].regulator != p {
      RegulatorsAppear(events[..n], p);
      Rejoin(events);
      SeenByOneMore(events[..n], events[n], p, n);
    }
  }

  lemma {:induction false} RegulatorsInOrder(events: seq<Event>, i: nat, j: nat)
    requires i < j < |Regulators(events)|
    ensures Precedes(events, Regulators(events)[i], Regulators(events)[j])
  {
    var n := |events| - 1;
    var front, last := events[..n], events[n];
    var before := Regulators(front);
    Rejoin(events);
    if j < |before| {
      RegulatorsInOrder(front, i, j);
      PrecedesOneMore(front, last, before[i], before[j]);
    } else {
      RegulatorsAreDistinct(front);
      forall b | 0 <= b < |front|
        ensures front[b].regulator in before
      {
        assert front[b] in front;
      }
      assert Precedes(front, before[i], last.regulator);
      PrecedesOneMore(front, last, before[i], last.regulator);
    }
  }

  /** The regulator of entry i is the p-th, and later entries are of the p-th or a
      later one. */
  ghost predicate GroupedFrom(batch: seq<Event>, regulators: seq<string>, i: nat, p: nat) {
    && i < |batch| && p < |regulators| && regulators[p] == batch[i].regulator
    && forall j :: i < j < |batch| ==> batch[j].regulator in regulators[p..]
  }

  ghost predicate AllOf(group: seq<Event>, r: string) {
    forall k :: 0 <= k < |group| ==> group[k].regulator == r
  }

  lemma GroupedOneMore(before: seq<Event>, regulators: seq<string>, i: nat, p: nat, group: seq<Event>, r: string)
    requires GroupedFrom(before, regulators, i, p) && AllOf(group, r)
    ensures GroupedFrom(before + group, regulators + [r], i, p)
  {
    assert (regulators + [r])[p..] == regulators[p..] + [r];
  }

  lemma GroupedLast(before: seq<Event>, regulators: seq<string>, i: nat, group: seq<Event>, r: string)
    requires |before| <= i < |before| + |group| && AllOf(group, r)
    ensures GroupedFrom(before + group, regulators + [r], i, |regulators|)
  {
    assert (regulators + [r])[|regulators|..] == [r];
  }

  lemma {:induction false} GroupIsUniform(events: seq<Event>, stored: set<Key>, r: string)
    ensures AllOf(Unseen(FromRegulator(events, r), stored), r)
  {
    var group := Unseen(FromRegulator(events, r), stored);
    GroupsAreUniform(events, r);
    forall k | 0 <= k < |group|
      ensures group[k].regulator == r
    {
      UnseenAreThere(FromRegulator(events, r), stored, group[k]);
    }
  }

  lemma {:induction false} GroupedBy(regulators: seq<string>, events: seq<Event>, stored: set<Key>, i: nat)
    returns (p: nat)
    requires i < |Gather(regulators, events, stored)|
    ensures GroupedFrom(Gather(regulators, events, stored), regulators, i, p)
  {
    var front, last := regulators[..|regulators| - 1], regulators[|regulators| - 1];
    var before, group := Gather(front, events, stored), Unseen(FromRegulator(events, last), stored);
    GroupIsUniform(events, stored, last);
    Rejoin(regulators);
    if i < |before| {
      p := GroupedBy(front, events, stored, i);
      GroupedOneMore(before, front, i, p, group, last);
    } else {
      p := |front|;
      GroupedLast(before, front, i, group, last);
    }
  }

  lemma {:induction false} UnseenAreThere(events: seq<Event>, stored: set<Key>, e: Event)
    requires e in Unseen(events, stored)
    ensures e in events
  {
    if events[|events| - 1] != e {
      UnseenAreThere(events[..|events| - 1], stored, e);
    }
  }

  /** The new list goes regulator by regulator, in the order they first appear among
      the fetched events. */
  lemma {:induction false} NewIsGrouped(events: seq<Event>, stored: set<Key>, i: nat, j: nat)
    requires i < j < |NewEvents(events, stored)|
    ensures Precedes(events, NewEvents(events, stored)[i].regulator, NewEvents(events, stored)[j].regulator)
  {
    var regulators, batch := Regulators(events), NewEvents(events, stored);
    var p := GroupedBy(regulators, events, stored, i);
    var q :| p <= q < |regulators| && regulators[q] == batch[j].regulator;
    if p < q {
      RegulatorsInOrder(events, p, q);
    }
  }

  // ---- One poll -----------------------------------------------------------

  datatype Outcome = Outcome(
    feedsPolled: nat,
    feedsErrored: nat,
    fetched: nat,
    newEvents: nat,
    notifiersRun: nat,
    notifierErrors: nat,
    perRegulator: map<string, nat>)

  /** The stored keys, and every batch handed to a notifier so far. */
  datatype State = State(stored: set<Key>, handed: seq<seq<Event>>)

  function Fetched(feeds: seq<Feed>): seq<Event> {
    if feeds == [] then []
    else Fetched(feeds[..|feeds| - 1]) + feeds[|feeds| - 1].events.GetOr([])
  }

  function Errored(feeds: seq<Feed>): nat {
    if feeds == [] then 0
    else Errored(feeds[..|feeds| - 1]) + if feeds[|feeds| - 1].events.None? then 1 else 0
  }

  function Raised(notifiers: seq<Notifier>): nat {
    if notifiers == [] then 0
    else Raised(notifiers[..|notifiers| - 1]) + if notifiers[|notifiers| - 1] == Raises then 1 else 0
  }

  function PerRegulator(events: seq<Event>): map<string, nat> {
    if events == [] then map[] else Bump(PerRegulator(events[..|events| - 1]), events[|events| - 1].regulator)
  }

  function Poll(s: State, feeds: seq<Feed>, notifiers: seq<Notifier>): State {
    var batch := NewEvents(Fetched(feeds), s.stored);
    if batch == [] then s
    else
      State(if Inserts in notifiers then s.stored + KeysOf(batch) else s.stored,
            s.handed + seq(|notifiers|, _ => batch))
  }

  function OutcomeOf(s: State, feeds: seq<Feed>, notifiers: seq<Notifier>): Outcome {
    var batch := NewEvents(Fetched(feeds), s.stored);
    Outcome(|feeds|, Errored(feeds), |Fetched(feeds)|, |batch|,
            if batch == [] then 0 else |notifiers|,
            if batch == [] then 0 else Raised(notifiers),
            PerRegulator(batch))
  }

  lemma {:induction false} FetchedInTwo(a: seq<Feed>, b: seq<Feed>)
    ensures Fetched(a + b) == Fetched(a) + Fetched(b)
  {
    if b == [] {
      Nothing(a);
      Nothing(Fetched(a));
    } else {
      var front, last := b[..|b| - 1], b[|b| - 1];
      FetchedInTwo(a, front);
      RejoinAfter(a, b);
      assert (a + b)[..|a + b| - 1] == a + front;
      Regroup(Fetched(a), Fetched(front), last.events.GetOr([]));
    }
  }

  /** The fetched list is the feeds' events one feed after the other; a feed that
      raised adds nothing. */
  lemma {:induction false} FetchedJoins(a: seq<Feed>, feed: Feed, b: seq<Feed>)
    ensures Fetched(a + [feed] + b) == Fetched(a) + (if feed.events.Some? then feed.events.value else []) + Fetched(b)
  {
    FetchedInTwo(a + [feed], b);
    FetchedInTwo(a, [feed]);
    assert [feed][..0] == [];
  }

  /** A poll hands every notifier one copy of the same batch, or nothing at all when
      nothing is new; keys are stored when a notifier inserts. */
  lemma {:induction false} PollHands(s: State, feeds: seq<Feed>, notifiers: seq<Notifier>)
    ensures var s', batch := Poll(s, feeds, notifiers), NewEvents(Fetched(feeds), s.stored);
            && s.handed <= s'.handed
            && |s'.handed| == |s.handed| + (if batch == [] then 0 else |notifiers|)
            && (forall k :: |s.handed| <= k < |s'.handed| ==> s'.handed[k] == batch)
            && (forall key :: key in s'.stored <==> key in s.stored || (Inserts in notifiers && HasKey(batch, key)))
  {
  }

  ghost predicate HasKey(events: seq<Event>, key: Key) {
    exists e :: e in events && (e.regulator, e.externalId) == key
  }

  class WatcherService {
    var stored: set<Key>
    ghost var handed: seq<seq<Event>>

    constructor ()
      ensures Now() == State({}, [])
    {
      stored, handed := {}, [];
    }

    ghost function Now(): State
      reads this
    {
      State(stored, handed)
    }

    method Notify(notifier: Notifier, batch: seq<Event>) returns (ok: bool)
      modifies this
      ensures ok <==> notifier != Raises
      ensures handed == old(handed) + [batch]
      ensures stored == if notifier == Inserts then old(stored) + KeysOf(batch) else old(stored)
    {
      handed := handed + [batch];
      if notifier == Inserts {
        stored := stored + KeysOf(batch);
      }
      ok := notifier != Raises;
    }

    method PollOnce(feeds: seq<Feed>, notifiers: seq<Notifier>) returns (o: Outcome)
      modifies this
      ensures Now() == Poll(old(Now()), feeds, notifiers)
      ensures o == OutcomeOf(old(Now()), feeds, notifiers)
    {
      var allFetched, errored := FetchAll(feeds);
      var batch := FilterNew(allFetched, stored);
      var perRegulator := CountByRegulator(batch);
      var run, errors := 0, 0;
      if batch != [] {
        run, errors := Fan(batch, notifiers);
      }
      return Outcome(|feeds|, errored, |allFetched|, |batch|, run, errors, perRegulator);
    }

    /** Every notifier sees every new event; one that raises stops none of the others. */
    method Fan(batch: seq<Event>, notifiers: seq<Notifier>) returns (run: nat, errors: nat)
      modifies this
      ensures run == |notifiers| && errors == Raised(notifiers)
      ensures stored == if Inserts in notifiers then old(stored) + KeysOf(batch) else old(stored)
      ensures handed == old(handed) + seq(|notifiers|, _ => batch)
    {
      run, errors := 0, 0;
      for i := 0 to |notifiers|
        invariant run == i && errors == Raised(notifiers[..i])
        invariant stored == if Inserts in notifiers[..i] then old(stored) + KeysOf(batch) else old(stored)
        invariant handed == old(handed) + seq(i, _ => batch)
      {
        assert notifiers[..i + 1] == notifiers[..i] + [notifiers[i]];
        assert seq(i + 1, _ => batch) == seq(i, _ => batch) + [batch];
        run := run + 1;
        var ok := Notify(notifiers[i], batch);
        if !ok {
          errors := errors + 1;
        }
      }
      assert notifiers[..|notifiers|] == notifiers;
    }
  }

  method FetchAll(feeds: seq<Feed>) returns (all: seq<Event>, errored: nat)
    ensures all == Fetched(feeds) && errored == Errored(feeds)
  {
    all, errored := [], 0;
    for i := 0 to |feeds|
      invariant all == Fetched(feeds[..i]) && errored == Errored(feeds[..i])
    {
      assert feeds[..i + 1][..i] == feeds[..i];
      if feeds[i].events.None? {
        errored := errored + 1;
        continue;
      }
      all := all + feeds[i].events.value;
    }
    assert feeds[..|feeds|] == feeds;
  }

  method CountByRegulator(events: seq<Event>) returns (m: map<string, nat>)
    ensures m == PerRegulator(events)
  {
    m := map[];
    for i := 0 to |events|
      invariant m == PerRegulator(events[..i])
    {
      assert events[..i + 1][..i] == events[..i];
      var r := events[i].regulator;
      m := m[r := (if r in m then m[r] else 0) + 1];
    }
    assert events[..|events|] == events;
  }

  lemma {:induction false} PerRegulatorCounts(events: seq<Event>, r: string)
    ensures Total(PerRegulator(events)) == |events|
    ensures (if r in PerRegulator(events) then PerRegulator(events)[r] else 0) == |FromRegulator(events, r)|
  {
    if events != [] {
      var n := |events| - 1;
      PerRegulatorCounts(events[..n], r);
      BumpAddsOne(PerRegulator(events[..n]), events[n].regulator);
    }
  }

  /** The counters of one poll agree with each other and with the batch. */
  lemma OutcomeAddsUp(s: State, feeds: seq<Feed>, notifiers: seq<Notifier>, r: string)
    ensures var o, fetched := OutcomeOf(s, feeds, notifiers), Fetched(feeds);
            && o.feedsPolled == |feeds| && o.feedsErrored == |Failing(feeds)| && o.fetched == |fetched|
            && o.notifiersRun == (if o.newEvents == 0 then 0 else |notifiers|)
            && o.notifierErrors == (if o.newEvents == 0 then 0 else multiset(notifiers)[Raises])
            && Total(o.perRegulator) == o.newEvents == |Unseen(fetched, s.stored)| <= o.fetched
            && (if r in o.perRegulator then o.perRegulator[r] else 0) == |Unseen(FromRegulator(fetched, r), s.stored)|
  {
    var fetched := Fetched(feeds);
    var batch := NewEvents(fetched, s.stored);
    PerRegulatorCounts(batch, r);
    NewKeepsFetchOrder(fetched, s.stored, r);
    NewIsPermutationOfUnseen(fetched, s.stored);
    assert |batch| == |multiset(batch)| == |Unseen(fetched, s.stored)|;
    UnseenIsShorter(fetched, s.stored);
    ErroredAreFailing(feeds);
    RaisedIsMultiplicity(notifiers);
  }

  ghost function Failing(feeds: seq<Feed>): set<nat> {
    set i: nat | i < |feeds| && feeds[i].events.None?
  }

  lemma {:induction false} ErroredAreFailing(feeds: seq<Feed>)
    ensures Errored(feeds) == |Failing(feeds)|
  {
    if feeds == [] {
      assert Failing(feeds) == {};
    } else {
      var n := |feeds| - 1;
      ErroredAreFailing(feeds[..n]);
      assert Failing(feeds) == Failing(feeds[..n]) + if feeds[n].events.None? then {n} else {};
    }
  }

  lemma {:induction false} RaisedIsMultiplicity(notifiers: seq<Notifier>)
    ensures Raised(notifiers) == multiset(notifiers)[Raises]
  {
    if notifiers != [] {
      RaisedIsMultiplicity(notifiers[..|notifiers| - 1]);
      MultisetFront(notifiers);
    }
  }

  lemma {:induction false} UnseenIsShorter(events: seq<Event>, stored: set<Key>)
    ensures |Unseen(events, stored)| <= |events|
  {
    if events != [] {
      UnseenIsShorter(events[..|events| - 1], stored);
    }
  }

  // ---- Repeated polls -----------------------------------------------------

  datatype PollInput = PollInput(feeds: seq<Feed>, notifiers: seq<Notifier>)

  function PollAll(s: State, polls: seq<PollInput>): State {
    if polls == [] then s
    else
      var n := |polls| - 1;
      Poll(PollAll(s, polls[..n]), polls[n].feeds, polls[n].notifiers)
  }

  lemma BatchIsUnseen(events: seq<Event>, stored: set<Key>)
    ensures forall e :: e in NewEvents(events, stored) ==> KeyOf(e) !in stored
  {
    NewIsPermutationOfUnseen(events, stored);
    forall e | e in NewEvents(events, stored)
      ensures KeyOf(e) !in stored
    {
      assert e in multiset(NewEvents(events, stored));
    }
  }

  ghost predicate Avoids(batches: seq<seq<Event>>, keys: set<Key>) {
    forall b, e :: b in batches && e in b ==> KeyOf(e) !in keys
  }

  /** The batches handed out after `s`. */
  ghost function Since(s: State, s': State): seq<seq<Event>> {
    if |s.handed| <= |s'.handed| then s'.handed[|s.handed|..] else []
  }

  /** Over any later polls, whatever feeds return and notifiers do, an event stored
      before is never handed to a notifier again. */
  lemma {:induction false} StoredIsNeverHandedAgain(s: State, polls: seq<PollInput>)
    ensures var s' := PollAll(s, polls);
            && s.stored <= s'.stored
            && s.handed <= s'.handed
            && Avoids(Since(s, s'), s.stored)
  {
    if polls != [] {
      var n := |polls| - 1;
      var mid, end := PollAll(s, polls[..n]), PollAll(s, polls);
      StoredIsNeverHandedAgain(s, polls[..n]);
      var batch := NewEvents(Fetched(polls[n].feeds), mid.stored);
      BatchIsUnseen(Fetched(polls[n].feeds), mid.stored);
      if batch != [] {
        var more := seq(|polls[n].notifiers|, _ => batch);
        assert Since(s, end) == Since(s, mid) + more;
        assert forall b :: b in more ==> b == batch;
      }
    }
  }

  /** What a poll hands out is stored by that poll if and only if one of its
      notifiers is the database one and inserted; otherwise the same feeds hand
      out exactly the same events next time. */
  lemma HandedIsStoredIff(s: State, feeds: seq<Feed>, notifiers: seq<Notifier>)
    requires NewEvents(Fetched(feeds), s.stored) != []
    ensures var s', batch := Poll(s, feeds, notifiers), NewEvents(Fetched(feeds), s.stored);
            && (KeysOf(batch) <= s'.stored <==> Inserts in notifiers)
            && (NewEvents(Fetched(feeds), s'.stored) == batch <==> Inserts !in notifiers)
  {
    var batch := NewEvents(Fetched(feeds), s.stored);
    BatchIsUnseen(Fetched(feeds), s.stored);
    assert batch[0] in batch && KeyOf(batch[0]) in KeysOf(batch);
    if Inserts in notifiers {
      var s' := Poll(s, feeds, notifiers);
      BatchIsUnseen(Fetched(feeds), s'.stored);
      assert KeyOf(batch[0]) in s'.stored;
    }
  }

  /** What the k-th poll of a run finds new and hands to its notifiers. */
  ghost function BatchAt(s: State, polls: seq<PollInput>, k: nat): seq<Event>
    requires k < |polls|
  {
    NewEvents(Fetched(polls[k].feeds), PollAll(s, polls[..k]).stored)
  }

  lemma {:induction false} OneMorePoll(s: State, polls: seq<PollInput>, p: PollInput)
    ensures PollAll(s, polls + [p]) == Poll(PollAll(s, polls), p.feeds, p.notifiers)
  {
    assert (polls + [p])[..|polls|] == polls;
  }

  lemma {:induction false} PollsInTwo(s: State, a: seq<PollInput>, b: seq<PollInput>)
    ensures PollAll(s, a + b) == PollAll(PollAll(s, a), b)
  {
    if b == [] {
      assert a + b == a;
    } else {
      var front, last := b[..|b| - 1], b[|b| - 1];
      PollsInTwo(s, a, front);
      OneMorePoll(s, a + front, last);
      OneMorePoll(PollAll(s, a), front, last);
      Rejoin(b);
      RejoinAfter(a, b);
    }
  }

  lemma {:induction false} StoredInTwo(s: State, a: seq<PollInput>, b: seq<PollInput>)
    ensures PollAll(s, a).stored <= PollAll(s, a + b).stored
  {
    PollsInTwo(s, a, b);
    StoredIsNeverHandedAgain(PollAll(s, a), b);
  }

  lemma {:induction false} StoredSince(s: State, polls: seq<PollInput>, i: nat, j: nat)
    requires i <= j <= |polls|
    ensures PollAll(s, polls[..i]).stored <= PollAll(s, polls[..j]).stored
  {
    assert polls[..i] + polls[i..j] == polls[..j];
    StoredInTwo(s, polls[..i], polls[i..j]);
  }

  lemma {:induction false} BatchIsStored(s: State, polls: seq<PollInput>, i: nat)
    requires i < |polls| && Inserts in polls[i].notifiers
    ensures KeysOf(BatchAt(s, polls, i)) <= PollAll(s, polls[..i + 1]).stored
  {
    assert polls[..i + 1][..i] == polls[..i];
  }

  lemma KeysApart(first: seq<Event>, later: seq<Event>, stored: set<Key>, stored': set<Key>)
    requires KeysOf(first) <= stored <= stored' && forall e :: e in later ==> KeyOf(e) !in stored'
    ensures KeysOf(first) !! KeysOf(later)
  {
  }

  /** Over any run: two polls never hand out the same key, if the earlier one stored
      what it handed out. */
  lemma {:induction false} OncePerKey(s: State, polls: seq<PollInput>, i: nat, j: nat)
    requires i < j < |polls| && Inserts in polls[i].notifiers
    ensures KeysOf(BatchAt(s, polls, i)) !! KeysOf(BatchAt(s, polls, j))
  {
    var after, before := PollAll(s, polls[..i + 1]).stored, PollAll(s, polls[..j]).stored;
    BatchIsStored(s, polls, i);
    StoredSince(s, polls, i + 1, j);
    BatchIsUnseen(Fetched(polls[j].feeds), before);
    KeysApart(BatchAt(s, polls, i), BatchAt(s, polls, j), after, before);
  }
}
