/** The bridge from event-source callbacks to an async generator: a queue, one
    resolve slot and a done flag, under every interleaving of the callbacks with
    the generator's own steps. */
module StreamBridge {
  import opened Prelude

  type Event = string

  /** A frame's payload: not JSON, the JSON value null, or an event. */
  datatype Frame = Malformed | Null | Data(event: Event)

  /** Where the generator is: outside `promise()`, suspended on it, holding the
      value it was resolved with, or returned. `end` tells the null that closing
      hands over from a null that arrived as a message. */
  datatype Consumer = Ready | Awaiting | Holding(value: Option<Event>, end: bool) | Ended

  datatype State = State(
    queue: seq<Option<Event>>,
    resolve: bool,
    done: bool,
    consumer: Consumer,
    taken: seq<Option<Event>>,
    yielded: seq<Event>)

  datatype Action = Message(frame: Frame) | Close | Error | Pull | Resume

  const START: State := State([], false, false, Ready, [], [])

  function Payload(f: Frame): Option<Event> {
    if f.Data? then Some(f.event) else None
  }

  function Finish(s: State): State {
    if s.resolve then s.(done := true, resolve := false, consumer := Holding(None, true)) else s.(done := true)
  }

  function Step(s: State, a: Action): State {
    match a
    case Message(f) =>
      if f.Malformed? then s
      else if s.resolve then s.(resolve := false, consumer := Holding(Payload(f), false))
      else s.(queue := s.queue + [Payload(f)])
    case Close => Finish(s)
    case Error => Finish(s)
    case Pull =>
      if !s.consumer.Ready? then s
      else if s.queue != [] then s.(queue := s.queue[1..], consumer := Holding(s.queue[0], false))
      else if s.done then s.(consumer := Holding(None, true))
      else s.(resolve := true, consumer := Awaiting)
    case Resume =>
      if !s.consumer.Holding? then s
      else
        var v := s.consumer.value;
        var s' := if s.consumer.end then s else s.(taken := s.taken + [v]);
        if v.None? then s'.(consumer := Ended) else s'.(consumer := Ready, yielded := s.yielded + [v.value])
  }

  ghost function Exec(actions: seq<Action>): State {
    if actions == [] then START else Step(Exec(actions[..|actions| - 1]), actions[|actions| - 1])
  }

  /** What the callbacks parsed, in arrival order. */
  ghost function Received(actions: seq<Action>): seq<Option<Event>> {
    if actions == [] then []
    else Received(actions[..|actions| - 1]) + Arrived(actions[|actions| - 1])
  }

  // ---- The closure's variables as the callbacks change them ---------------

  class Bridge {
    var queue: seq<Option<Event>>
    var resolve: bool
    var done: bool
    var consumer: Consumer
    ghost var taken: seq<Option<Event>>
    var yielded: seq<Event>

    constructor ()
      ensures Now() == START
    {
      queue, resolve, done, consumer, taken, yielded := [], false, false, Ready, [], [];
    }

    ghost function Now(): State
      reads this
    {
      State(queue, resolve, done, consumer, taken, yielded)
    }

    method OnMessage(f: Frame)
      modifies this
      ensures Now() == Step(old(Now()), Message(f))
      ensures f.Data? && !old(resolve) ==> queue == old(queue) + [Some(f.event)]
      ensures f.Data? && old(resolve) ==> consumer == Holding(Some(f.event), false)
    {
      if f.Malformed? {
        return;
      }
      if resolve {
        resolve, consumer := false, Holding(Payload(f), false);
      } else {
        queue := queue + [Payload(f)];
      }
    }

    method OnClose()
      modifies this
      ensures Now() == Step(old(Now()), Close) == Step(old(Now()), Error)
    {
      done := true;
      if resolve {
        resolve, consumer := false, Holding(None, true);
      }
    }

    method Promise()
      requires consumer.Ready?
      modifies this
      ensures Now() == Step(old(Now()), Pull)
    {
      if queue != [] {
        queue, consumer := queue[1..], Holding(queue[0], false);
      } else if done {
        consumer := Holding(None, true);
      } else {
        resolve, consumer := true, Awaiting;
      }
    }

    method Next()
      requires consumer.Holding?
      modifies this
      ensures Now() == Step(old(Now()), Resume)
      ensures old(consumer).value.Some? ==> yielded == old(yielded) + [old(consumer).value.value]
    {
      var next := consumer.value;
      if !consumer.end {
        taken := taken + [next];
      }
      if next.None? {
        consumer := Ended;
      } else {
        yielded, consumer := yielded + [next.value], Ready;
      }
    }
  }

  // ---- What every run keeps -----------------------------------------------

  ghost function Events(vs: seq<Option<Event>>): seq<Event> {
    if vs == [] then []
    else Events(vs[..|vs| - 1]) + if vs[|vs| - 1].Some? then [vs[|vs| - 1].value] else []
  }

  ghost function InHand(c: Consumer): seq<Option<Event>> {
    if c.Holding? && !c.end then [c.value] else []
  }

  ghost predicate Ending(c: Consumer) {
    c.Ended? || (c.Holding? && c.end)
  }

  /** Everything parsed so far, as it stands between queue and consumer. */
  ghost function Flow(s: State): seq<Option<Event>> {
    s.taken + InHand(s.consumer) + s.queue
  }

  ghost predicate Coherent(s: State) {
    && (s.resolve <==> s.consumer.Awaiting?)
    && (s.consumer.Awaiting? ==> s.queue == [] && !s.done)
    && (s.consumer.Holding? && s.consumer.end ==> s.done && s.consumer.value == None)
    && (!s.consumer.Ended? ==> None !in s.taken)
    && (s.consumer.Ended? ==> s.done || None in s.taken)
  }

  ghost predicate Inv(s: State, received: seq<Option<Event>>) {
    Flow(s) == received && s.yielded == Events(s.taken) && Coherent(s)
  }

  ghost function Arrived(a: Action): seq<Option<Event>> {
    if a.Message? && !a.frame.Malformed? then [Payload(a.frame)] else []
  }

  lemma Requeue<T>(taken: seq<T>, queue: seq<T>)
    requires queue != []
    ensures taken + [queue[0]] + queue[1..] == taken + [] + queue
  {
    assert queue == [queue[0]] + queue[1..];
  }

  lemma Settle<T>(taken: seq<T>, v: T, queue: seq<T>)
    ensures taken + [v] + [] + queue == taken + [v] + queue
  {
  }

  lemma Append<T>(taken: seq<T>, hand: seq<T>, queue: seq<T>, v: T)
    ensures taken + hand + (queue + [v]) == taken + hand + queue + [v]
  {
  }

  /** One step moves values along taken, hand and queue without touching their order. */
  lemma {:induction false} StepConserves(s: State, a: Action)
    requires Coherent(s)
    ensures Flow(Step(s, a)) == Flow(s) + Arrived(a)
  {
    Nothing(Flow(s));
    match a
    case Message(f) =>
      if !f.Malformed? {
        if s.resolve {
          assert InHand(s.consumer) == [] && s.queue == [];
        } else {
          Append(s.taken, InHand(s.consumer), s.queue, Payload(f));
        }
      }
    case Close =>
    case Error =>
    case Pull =>
      if s.consumer.Ready? && s.queue != [] {
        Requeue(s.taken, s.queue);
      }
    case Resume =>
      if s.consumer.Holding? && !s.consumer.end {
        Settle(s.taken, s.consumer.value, s.queue);
      }
  }

  lemma {:induction false} EventsOfOneMore(vs: seq<Option<Event>>, v: Option<Event>)
    ensures Events(vs + [v]) == Events(vs) + if v.Some? then [v.value] else []
  {
    assert (vs + [v])[..|vs|] == vs;
  }

  lemma {:induction false} YieldedFollowsTaken(s: State, a: Action)
    requires Coherent(s) && s.yielded == Events(s.taken)
    ensures Step(s, a).yielded == Events(Step(s, a).taken)
  {
    if a.Resume? && s.consumer.Holding? {
      EventsOfOneMore(s.taken, s.consumer.value);
    }
  }

  lemma {:induction false} StepStaysCoherent(s: State, a: Action)
    requires Coherent(s)
    ensures Coherent(Step(s, a))
  {
    if a.Resume? && s.consumer.Holding? && !s.consumer.end {
      assert (s.taken + [s.consumer.value])[|s.taken|] == s.consumer.value;
    }
  }

  lemma {:induction false} StepKeepsInv(s: State, a: Action, received: seq<Option<Event>>)
    requires Inv(s, received)
    ensures Inv(Step(s, a), received + Arrived(a))
  {
    StepConserves(s, a);
    YieldedFollowsTaken(s, a);
    StepStaysCoherent(s, a);
  }

  /** In every run: what was yielded or taken, the value in hand and the queue are
      the parsed messages in order; a suspended generator means an empty queue and
      an open stream; what is yielded is what was taken, without nulls. */
  lemma {:induction false} NothingLostOrReordered(actions: seq<Action>)
    ensures Inv(Exec(actions), Received(actions))
  {
    if actions != [] {
      var n := |actions| - 1;
      NothingLostOrReordered(actions[..n]);
      StepKeepsInv(Exec(actions[..n]), actions[n], Received(actions[..n]));
    }
  }

  // ---- Ending -------------------------------------------------------------

  ghost predicate Closed(actions: seq<Action>) {
    Close in actions || Error in actions
  }

  lemma {:induction false} DoneMeansClosed(actions: seq<Action>)
    ensures Exec(actions).done <==> Closed(actions)
  {
    if actions != [] {
      var n := |actions| - 1;
      DoneMeansClosed(actions[..n]);
      assert forall a :: a in actions <==> a in actions[..n] || a == actions[n];
    }
  }

  /** A run that ends without a null frame ends after close or error; one that ends
      while the stream is open took a null. */
  lemma EndsOnlyAfterClose(actions: seq<Action>)
    requires Exec(actions).consumer.Ended?
    ensures Message(Null) !in actions ==> Closed(actions)
    ensures !Closed(actions) ==> None in Exec(actions).taken && Message(Null) in actions
  {
    NothingLostOrReordered(actions);
    DoneMeansClosed(actions);
    NullsComeFromNullFrames(actions);
    var s := Exec(actions);
    assert None in s.taken ==> None in Flow(s);
  }

  /** The frames the server sent over a run. */
  ghost function Frames(actions: seq<Action>): seq<Frame> {
    if actions == [] then []
    else
      var last := actions[|actions| - 1];
      Frames(actions[..|actions| - 1]) + if last.Message? then [last.frame] else []
  }

  lemma {:induction false} FramesAreMessages(actions: seq<Action>, f: Frame)
    ensures f in Frames(actions) <==> Message(f) in actions
  {
    if actions != [] {
      var n := |actions| - 1;
      FramesAreMessages(actions[..n], f);
      assert forall a :: a in actions <==> a in actions[..n] || a == actions[n];
    }
  }

  // ---- Which runs a server can bring about --------------------------------

  predicate IsCallback(a: Action) {
    a.Message? || a.Close? || a.Error?
  }

  /** The callbacks of a run, without the generator's own steps. */
  ghost function Callbacks(actions: seq<Action>): seq<Action> {
    if actions == [] then []
    else
      var last := actions[|actions| - 1];
      Callbacks(actions[..|actions| - 1]) + if IsCallback(last) then [last] else []
  }

  ghost predicate OnlyCallbacks(cs: seq<Action>) {
    forall a :: a in cs ==> IsCallback(a)
  }

  lemma {:induction false} OneMoreAction(actions: seq<Action>, a: Action)
    ensures Exec(actions + [a]) == Step(Exec(actions), a)
    ensures Frames(actions + [a]) == Frames(actions) + if a.Message? then [a.frame] else []
    ensures Callbacks(actions + [a]) == Callbacks(actions) + if IsCallback(a) then [a] else []
    ensures Closed(actions + [a]) <==> Closed(actions) || a == Close || a == Error
  {
    assert (actions + [a])[..|actions|] == actions;
  }

  /** Callbacks alone only queue what they parse. */
  lemma {:induction false} Delivered(cs: seq<Action>)
    requires OnlyCallbacks(cs)
    ensures var s := Exec(cs); s.consumer.Ready? && !s.resolve && s.queue == Received(cs)
    ensures Callbacks(cs) == cs
  {
    if cs != [] {
      var front, last := cs[..|cs| - 1], cs[|cs| - 1];
      assert last in cs && forall a :: a in front ==> a in cs;
      Delivered(front);
      Nothing(Received(front));
      Rejoin(cs);
    }
  }

  /** `more` is `actions` run on by the generator alone until it has returned. */
  ghost predicate RunsToEnd(actions: seq<Action>, more: seq<Action>) {
    && Exec(more).consumer.Ended?
    && Frames(more) == Frames(actions) && Callbacks(more) == Callbacks(actions) && (Closed(more) <==> Closed(actions))
  }

  /** An idle generator with a null queued or a closed stream can run to its end. */
  lemma {:induction false} PullToEnd(actions: seq<Action>) returns (more: seq<Action>)
    requires Exec(actions).consumer.Ready? && (None in Exec(actions).queue || Exec(actions).done)
    ensures RunsToEnd(actions, more)
    decreases |Exec(actions).queue|
  {
    var queue := Exec(actions).queue;
    OneMoreAction(actions, Pull);
    OneMoreAction(actions + [Pull], Resume);
    Nothing(Frames(actions));
    Nothing(Callbacks(actions));
    more := actions + [Pull] + [Resume];
    if queue != [] && queue[0] != None {
      assert None in queue ==> None in queue[1..] by {
        if None in queue {
          var k :| 0 <= k < |queue| && queue[k] == None;
          assert queue[1..][k - 1] == None;
        }
      }
      more := PullToEnd(more);
    }
  }

  function Messages(fs: seq<Frame>): seq<Action> {
    seq(|fs|, i requires 0 <= i < |fs| => Message(fs[i]))
  }

  lemma {:induction false} FramesOfMessages(fs: seq<Frame>)
    ensures Frames(Messages(fs)) == fs
  {
    if fs != [] {
      var n := |fs| - 1;
      FramesOfMessages(fs[..n]);
      assert Messages(fs)[..n] == Messages(fs[..n]);
      Rejoin(fs);
    }
  }

  /** Whatever the server sends, the generator returns only after close or error in
      every run of the callbacks if and only if no frame holds JSON null. */
  lemma {:induction false} OpenEndingIffNullSent(fs: seq<Frame>)
    ensures (forall actions :: Frames(actions) == fs && Exec(actions).consumer.Ended? ==> Closed(actions))
            <==> Null !in fs
  {
    if Null in fs {
      var cs := Messages(fs);
      FramesOfMessages(fs);
      Delivered(cs);
      FramesAreMessages(cs, Null);
      NullsComeFromNullFrames(cs);
      var actions := PullToEnd(cs);
      assert Frames(actions) == fs && !Closed(actions);
    } else {
      forall actions | Frames(actions) == fs && Exec(actions).consumer.Ended?
        ensures Closed(actions)
      {
        FramesAreMessages(actions, Null);
        EndsOnlyAfterClose(actions);
      }
    }
  }

  /** The shortest such run: the stream is open and the generator has returned. */
  lemma NullFrameEndsOpenStream()
    ensures var s := Exec([Message(Null), Pull, Resume]);
            s.consumer.Ended? && !s.done && s.yielded == []
  {
    OneMoreAction([], Message(Null));
    OneMoreAction([Message(Null)], Pull);
    OneMoreAction([Message(Null), Pull], Resume);
    assert [] + [Message(Null)] + [Pull] + [Resume] == [Message(Null), Pull, Resume];
  }

  lemma {:induction false} NullsComeFromNullFrames(actions: seq<Action>)
    ensures None in Received(actions) <==> Message(Null) in actions
  {
    if actions != [] {
      var n := |actions| - 1;
      NullsComeFromNullFrames(actions[..n]);
      assert forall a :: a in actions <==> a in actions[..n] || a == actions[n];
    }
  }

  // ---- Events that are never yielded --------------------------------------

  predicate IsEvent(a: Action) {
    a.Message? && a.frame.Data?
  }

  /** Some event arrived behind a null, or after the end marker was handed over. */
  ghost predicate ArrivedTooLate(actions: seq<Action>) {
    actions != [] &&
    var front, last := actions[..|actions| - 1], actions[|actions| - 1];
    ArrivedTooLate(front) || (IsEvent(last) && (Message(Null) in front || Ending(Exec(front).consumer)))
  }

  ghost predicate HasEvent(vs: seq<Option<Event>>) {
    Events(vs) != []
  }

  /** An event stands behind a null. */
  ghost predicate IsBlocked(vs: seq<Option<Event>>) {
    vs != [] && if vs[0].None? then HasEvent(vs[1..]) else IsBlocked(vs[1..])
  }

  /** What is parsed and not yet taken. */
  ghost function Held(s: State): seq<Option<Event>> {
    InHand(s.consumer) + s.queue
  }

  lemma HeldAfterMessage(s: State, f: Frame)
    requires Coherent(s) && !f.Malformed?
    ensures var s' := Step(s, Message(f));
            && Held(s') == Held(s) + [Payload(f)] && Ending(s'.consumer) == Ending(s.consumer)
            && (Ending(s.consumer) ==> s'.queue == s.queue + [Payload(f)])
  {
    if s.resolve {
      assert Held(s) == [];
    } else {
      Regroup(InHand(s.consumer), s.queue, [Payload(f)]);
    }
  }

  lemma HeldAfterPull(s: State)
    requires s.consumer.Ready? && s.queue != []
    ensures var s' := Step(s, Pull); Held(s') == Held(s) && s'.taken == s.taken && !Ending(s'.consumer)
  {
    assert [] + s.queue == [s.queue[0]] + s.queue[1..];
  }

  lemma HeldAfterResume(s: State)
    requires s.consumer.Holding? && !s.consumer.end
    ensures var v, s' := s.consumer.value, Step(s, Resume);
            && Held(s) == [v] + s.queue && Held(s') == s'.queue == s.queue && s'.taken == s.taken + [v]
            && (s'.consumer.Ended? <==> v.None?) && (s'.consumer.Ready? <==> v.Some?)
  {
  }

  /** The state holds an event that the generator will never yield. */
  ghost predicate Strands(s: State) {
    if Ending(s.consumer) then HasEvent(s.queue) else IsBlocked(Held(s))
  }

  lemma TailOfSum<T>(a: seq<T>, b: seq<T>)
    requires a != []
    ensures (a + b)[0] == a[0] && (a + b)[1..] == a[1..] + b
  {
  }

  lemma {:induction false} BlockedByOneMore(vs: seq<Option<Event>>, v: Option<Event>)
    ensures IsBlocked(vs + [v]) <==> IsBlocked(vs) || (v.Some? && None in vs)
    ensures HasEvent(vs + [v]) <==> HasEvent(vs) || v.Some?
  {
    EventsOfOneMore(vs, v);
    if vs == [] {
      assert (vs + [v])[1..] == [];
    } else {
      TailOfSum(vs, [v]);
      BlockedByOneMore(vs[1..], v);
      assert None in vs <==> vs[0] == None || None in vs[1..];
    }
  }

  lemma {:induction false} BlockedBehindFirst(v: Option<Event>, vs: seq<Option<Event>>)
    ensures IsBlocked([v] + vs) <==> if v.None? then HasEvent(vs) else IsBlocked(vs)
  {
    assert ([v] + vs)[1..] == vs;
  }

  lemma {:induction false} FlowIsHeld(s: State, received: seq<Option<Event>>)
    requires Inv(s, received)
    ensures received == s.taken + Held(s)
    ensures !s.consumer.Ended? ==> (None in received <==> None in Held(s))
  {
    Regroup(s.taken, InHand(s.consumer), s.queue);
    assert None in s.taken + Held(s) <==> None in s.taken || None in Held(s);
  }

  lemma {:induction false} MessageStrands(s: State, f: Frame)
    requires Coherent(s)
    ensures Strands(Step(s, Message(f)))
       <==> Strands(s) || (f.Data? && (Ending(s.consumer) || None in Held(s)))
  {
    if !f.Malformed? {
      HeldAfterMessage(s, f);
      BlockedByOneMore(s.queue, Payload(f));
      BlockedByOneMore(Held(s), Payload(f));
    }
  }

  lemma {:induction false} OwnStepStrands(s: State, a: Action)
    requires Coherent(s) && !a.Message?
    ensures Strands(Step(s, a)) <==> Strands(s)
  {
    match a
    case Close =>
      assert s.resolve ==> Held(s) == [];
    case Error =>
      assert s.resolve ==> Held(s) == [];
    case Pull =>
      if s.consumer.Ready? && s.queue != [] {
        HeldAfterPull(s);
      } else if s.consumer.Ready? {
        assert Held(s) == [];
      }
    case Resume =>
      if s.consumer.Holding? && !s.consumer.end {
        HeldAfterResume(s);
        BlockedBehindFirst(s.consumer.value, s.queue);
      }
  }

  lemma {:induction false} TooLateIffStranded(actions: seq<Action>)
    ensures ArrivedTooLate(actions) <==> Strands(Exec(actions))
  {
    if actions != [] {
      var n := |actions| - 1;
      var before, a := actions[..n], actions[n];
      TooLateIffStranded(before);
      NothingLostOrReordered(before);
      NullsComeFromNullFrames(before);
      FlowIsHeld(Exec(before), Received(before));
      if a.Message? {
        MessageStrands(Exec(before), a.frame);
      } else {
        OwnStepStrands(Exec(before), a);
      }
    }
  }

  lemma {:induction false} EventsAppend(a: seq<Option<Event>>, b: seq<Option<Event>>)
    ensures Events(a + b) == Events(a) + Events(b)
  {
    if b == [] {
      Nothing(a);
      Nothing(Events(a));
    } else {
      var front, v := b[..|b| - 1], b[|b| - 1];
      Rejoin(b);
      EventsAppend(a, front);
      assert a + b == (a + front) + [v];
      EventsOfOneMore(a + front, v);
    }
  }

  /** Run by run: a generator that has ended has yielded exactly the events
      received, in order, if and only if none arrived behind a null or after the
      end marker was handed over. */
  lemma {:induction false} EndedDeliversEverythingIff(actions: seq<Action>)
    requires Exec(actions).consumer.Ended?
    ensures Exec(actions).yielded == Events(Received(actions)) <==> !ArrivedTooLate(actions)
  {
    var s := Exec(actions);
    NothingLostOrReordered(actions);
    TooLateIffStranded(actions);
    Nothing(s.taken);
    EventsAppend(s.taken, s.queue);
  }

  /** The texts of the events in a run's messages, "" for every other action. */
  ghost function Texts(actions: seq<Action>): seq<Event> {
    seq(|actions|, i requires 0 <= i < |actions| =>
      if actions[i].Message? && actions[i].frame.Data? then actions[i].frame.event else "")
  }

  ghost function EventPositions(actions: seq<Action>): set<nat> {
    set i: nat | i < |actions| && actions[i].Message? && actions[i].frame.Data?
  }

  lemma {:induction false} EventArrives(received: seq<Option<Event>>, a: Action)
    ensures Events(received + Arrived(a)) == Events(received) + if IsEvent(a) then [a.frame.event] else []
  {
    if Arrived(a) == [] {
      Nothing(received);
    } else {
      EventsOfOneMore(received, Arrived(a)[0]);
    }
  }

  lemma TextsOneMore(actions: seq<Action>)
    requires actions != []
    ensures var n := |actions| - 1; var front, last := actions[..n], actions[n];
            && Texts(actions) == Texts(front) + [if IsEvent(last) then last.frame.event else ""]
            && |Texts(front)| == n
            && EventPositions(actions) == EventPositions(front) + if IsEvent(last) then {n} else {}
  {
  }

  lemma {:induction false} ReceivedAreTheSent(actions: seq<Action>)
    ensures Selection(Events(Received(actions)), Texts(actions), EventPositions(actions))
  {
    if actions == [] {
      SelectNothing<Event>();
      assert EventPositions(actions) == {};
    } else {
      var front, last := actions[..|actions| - 1], actions[|actions| - 1];
      ReceivedAreTheSent(front);
      EventArrives(Received(front), last);
      TextsOneMore(actions);
      Nothing(Events(Received(front)));
      if IsEvent(last) {
        SelectTake(Events(Received(front)), Texts(front), EventPositions(front), last.frame.event);
      } else {
        SelectSkip(Events(Received(front)), Texts(front), EventPositions(front), "");
      }
    }
  }

  /** In every run what is yielded is a beginning of the event texts the server sent,
      in order, and all of them once the generator has ended with none too late. */
  lemma {:induction false} YieldsTheTextsSent(actions: seq<Action>)
    ensures exists sent :: Selection(sent, Texts(actions), EventPositions(actions)) && Exec(actions).yielded <= sent
                           && (Exec(actions).consumer.Ended? && !ArrivedTooLate(actions) ==> Exec(actions).yielded == sent)
  {
    var s, sent := Exec(actions), Events(Received(actions));
    ReceivedAreTheSent(actions);
    NothingLostOrReordered(actions);
    FlowIsHeld(s, Received(actions));
    EventsAppend(s.taken, Held(s));
    assert sent == s.yielded + Events(Held(s));
    if s.consumer.Ended? {
      EndedDeliversEverythingIff(actions);
    }
  }

  /** A null, close or error among the callbacks. */
  ghost predicate HasTerminal(actions: seq<Action>) {
    Message(Null) in actions || Closed(actions)
  }

  /** Some event is sent after a null, close or error. */
  ghost predicate SendsLate(actions: seq<Action>) {
    actions != [] &&
    var front, last := actions[..|actions| - 1], actions[|actions| - 1];
    SendsLate(front) || (IsEvent(last) && HasTerminal(front))
  }

  lemma {:induction false} EndingHasTerminal(actions: seq<Action>)
    requires Ending(Exec(actions).consumer)
    ensures HasTerminal(actions)
  {
    NothingLostOrReordered(actions);
    NullsComeFromNullFrames(actions);
    DoneMeansClosed(actions);
    var s := Exec(actions);
    assert None in s.taken ==> None in Flow(s);
  }

  /** A server that sends no event after a null, close or error is never late. */
  lemma {:induction false} QuietServerIsNeverLate(actions: seq<Action>)
    ensures ArrivedTooLate(actions) ==> SendsLate(actions)
  {
    if actions != [] {
      var n := |actions| - 1;
      QuietServerIsNeverLate(actions[..n]);
      if Ending(Exec(actions[..n]).consumer) {
        EndingHasTerminal(actions[..n]);
      }
    }
  }

  lemma {:induction false} CallbacksDecide(actions: seq<Action>)
    ensures var cs := Callbacks(actions);
            && (HasTerminal(cs) <==> HasTerminal(actions))
            && (SendsLate(cs) <==> SendsLate(actions))
            && Received(cs) == Received(actions)
  {
    if actions != [] {
      var front, last := actions[..|actions| - 1], actions[|actions| - 1];
      CallbacksDecide(front);
      assert forall a :: a in actions <==> a in front || a == last;
      var cs := Callbacks(front);
      Nothing(Received(front));
      if IsCallback(last) {
        assert (cs + [last])[..|cs|] == cs;
        assert forall a :: a in cs + [last] <==> a in cs || a == last;
      } else {
        Nothing(cs);
      }
    }
  }

  ghost predicate ContainsEvent(cs: seq<Action>) {
    exists i :: 0 <= i < |cs| && IsEvent(cs[i])
  }

  lemma {:induction false} SplitLate(cs: seq<Action>) returns (k: nat)
    requires SendsLate(cs)
    ensures k <= |cs| && HasTerminal(cs[..k]) && ContainsEvent(cs[k..])
  {
    var n := |cs| - 1;
    if SendsLate(cs[..n]) {
      k := SplitLate(cs[..n]);
      var i :| 0 <= i < |cs[..n][k..]| && IsEvent(cs[..n][k..][i]);
      assert cs[k..][i] == cs[..n][k..][i];
      assert cs[..n][..k] == cs[..k];
    } else {
      k := n;
      assert cs[n..][0] == cs[n];
    }
  }

  lemma {:induction false} CallbacksAppend(a: seq<Action>, b: seq<Action>)
    ensures Callbacks(a + b) == Callbacks(a) + Callbacks(b)
  {
    if b == [] {
      Nothing(a);
      Nothing(Callbacks(a));
    } else {
      var front, last := b[..|b| - 1], b[|b| - 1];
      Rejoin(b);
      CallbacksAppend(a, front);
      assert a + b == (a + front) + [last];
      OneMoreAction(a + front, last);
    }
  }

  /** What arrives once the generator has returned stays in the queue. */
  lemma {:induction false} DeliverLate(actions: seq<Action>, rest: seq<Action>)
    requires Exec(actions).consumer.Ended?
    ensures Exec(actions + rest).consumer.Ended? && (ContainsEvent(rest) ==> ArrivedTooLate(actions + rest))
  {
    if rest == [] {
      Nothing(actions);
    } else {
      var front, last := rest[..|rest| - 1], rest[|rest| - 1];
      var all := actions + front;
      DeliverLate(actions, front);
      NothingLostOrReordered(all);
      OneMoreAction(all, last);
      assert actions + rest == all + [last] && (all + [last])[..|all|] == all;
      if ContainsEvent(rest) && !IsEvent(last) {
        var i :| 0 <= i < |rest| && IsEvent(rest[i]);
        assert front[i] == rest[i];
      }
    }
  }

  lemma {:induction false} QuietYieldsAll(actions: seq<Action>)
    requires Exec(actions).consumer.Ended? && !SendsLate(Callbacks(actions))
    ensures Exec(actions).yielded == Events(Received(Callbacks(actions)))
  {
    CallbacksDecide(actions);
    QuietServerIsNeverLate(actions);
    EndedDeliversEverythingIff(actions);
  }

  /** The run that shows the loss: the generator returns before the late event. */
  lemma {:induction false} LateLosesEvents(cs: seq<Action>) returns (actions: seq<Action>)
    requires OnlyCallbacks(cs) && SendsLate(cs)
    ensures Callbacks(actions) == cs && Exec(actions).consumer.Ended?
    ensures Exec(actions).yielded != Events(Received(actions))
  {
    var k := SplitLate(cs);
    var head, rest := cs[..k], cs[k..];
    assert cs == head + rest;
    Delivered(head);
    Delivered(rest);
    DoneMeansClosed(head);
    NullsComeFromNullFrames(head);
    var more := PullToEnd(head);
    actions := more + rest;
    CallbacksAppend(more, rest);
    DeliverLate(more, rest);
    EndedDeliversEverythingIff(actions);
  }

  /** Whatever the callbacks and however the generator runs between them: once it has
      returned it has yielded every event received, in order, if and only if the
      server sends no event after a null, close or error. */
  lemma {:induction false} EveryEventYieldedIff(cs: seq<Action>)
    requires OnlyCallbacks(cs)
    ensures (forall actions :: Callbacks(actions) == cs && Exec(actions).consumer.Ended? ==>
               Exec(actions).yielded == Events(Received(cs)))
            <==> !SendsLate(cs)
  {
    if SendsLate(cs) {
      var actions := LateLosesEvents(cs);
      CallbacksDecide(actions);
    } else {
      forall actions | Callbacks(actions) == cs && Exec(actions).consumer.Ended?
        ensures Exec(actions).yielded == Events(Received(cs))
      {
        QuietYieldsAll(actions);
      }
    }
  }

  // ---- Draining -----------------------------------------------------------

  ghost function NextMove(s: State): Action {
    if s.consumer.Holding? then Resume else Pull
  }

  /** The generator running on its own: each step it is able to take. */
  ghost function Drive(s: State, steps: nat): State
    decreases steps
  {
    if steps == 0 then s
    else Drive(Step(s, NextMove(s)), steps - 1)
  }

  ghost function StepsLeft(s: State): nat {
    if s.consumer.Ended? then 0
    else 2 * |s.queue| + if Ending(s.consumer) then 1 else if s.consumer.Holding? then 3 else 2
  }

  /** Everything up to the first null, the null included. */
  ghost function ThroughNull(vs: seq<Option<Event>>): seq<Option<Event>> {
    if vs == [] then [] else if vs[0].None? then [vs[0]] else [vs[0]] + ThroughNull(vs[1..])
  }

  lemma ConsSum<T>(a: seq<T>, x: seq<T>)
    requires a != []
    ensures [a[0]] + (a[1..] + x) == a + x
  {
  }

  lemma {:induction false} ThroughNullSkips(a: seq<Option<Event>>, b: seq<Option<Event>>)
    requires None !in a
    ensures ThroughNull(a + b) == a + ThroughNull(b)
  {
    if a == [] {
      assert a + b == b;
    } else {
      assert a[0] in a && forall v :: v in a[1..] ==> v in a;
      TailOfSum(a, b);
      ThroughNullSkips(a[1..], b);
      ConsSum(a, ThroughNull(b));
    }
  }

  lemma {:induction false} ThroughNullIsAll(vs: seq<Option<Event>>)
    requires None !in vs
    ensures ThroughNull(vs) == vs
  {
    ThroughNullSkips(vs, []);
    Nothing(vs);
  }

  /** What the generator will have taken when it returns. */
  ghost function WillTake(s: State): seq<Option<Event>> {
    if Ending(s.consumer) then s.taken else s.taken + ThroughNull(Held(s))
  }

  ghost predicate Draining(s: State) {
    Coherent(s) && s.yielded == Events(s.taken) && (s.done || s.consumer.Ended? || None in Held(s))
  }

  lemma {:induction false} PullDrains(s: State)
    requires Draining(s) && s.consumer.Ready?
    ensures var s' := Step(s, Pull);
            (s'.done || None in Held(s')) && WillTake(s') == WillTake(s) && StepsLeft(s') < StepsLeft(s)
  {
    if s.queue != [] {
      HeldAfterPull(s);
    } else {
      assert Held(s) == [];
      Nothing(s.taken);
    }
  }

  lemma {:induction false} ResumeTakes(taken: seq<Option<Event>>, v: Option<Event>, queue: seq<Option<Event>>)
    ensures taken + ThroughNull([v] + queue)
         == if v.None? then taken + [v] else taken + [v] + ThroughNull(queue)
  {
    assert ([v] + queue)[1..] == queue;
    Regroup(taken, [v], ThroughNull(queue));
  }

  lemma {:induction false} ResumeDrains(s: State)
    requires Draining(s) && s.consumer.Holding?
    ensures var s' := Step(s, Resume);
            (s'.done || s'.consumer.Ended? || None in Held(s')) && WillTake(s') == WillTake(s)
            && StepsLeft(s') < StepsLeft(s)
  {
    if !s.consumer.end {
      HeldAfterResume(s);
      ResumeTakes(s.taken, s.consumer.value, s.queue);
    }
  }

  lemma {:induction false} DrainStep(s: State)
    requires Draining(s) && !s.consumer.Ended?
    ensures var s' := Step(s, NextMove(s));
            Draining(s') && WillTake(s') == WillTake(s) && StepsLeft(s') < StepsLeft(s)
  {
    StepStaysCoherent(s, NextMove(s));
    YieldedFollowsTaken(s, NextMove(s));
    if s.consumer.Holding? {
      ResumeDrains(s);
    } else {
      assert s.consumer.Awaiting? ==> Held(s) == [];
      PullDrains(s);
    }
  }

  lemma {:induction false} EndedStays(s: State, steps: nat)
    requires s.consumer.Ended?
    ensures Drive(s, steps) == s
    decreases steps
  {
    if steps > 0 {
      assert Step(s, NextMove(s)) == s;
      EndedStays(s, steps - 1);
    }
  }

  /** The generator returns within `steps`, having taken `taken` and yielded its events. */
  ghost predicate Finishes(s: State, steps: nat, taken: seq<Option<Event>>)
    decreases steps
  {
    if s.consumer.Ended? then s.taken == taken && s.yielded == Events(taken)
    else steps > 0 && Finishes(Step(s, NextMove(s)), steps - 1, taken)
  }

  lemma {:induction false} DriveFinishes(s: State, steps: nat, taken: seq<Option<Event>>)
    requires Finishes(s, steps, taken)
    ensures var e := Drive(s, steps); e.consumer.Ended? && e.taken == taken && e.yielded == Events(taken)
    decreases steps
  {
    if s.consumer.Ended? {
      EndedStays(s, steps);
    } else {
      DriveFinishes(Step(s, NextMove(s)), steps - 1, taken);
    }
  }

  lemma {:induction false} DrainingFinishes(s: State, steps: nat)
    requires Draining(s) && StepsLeft(s) <= steps
    ensures Finishes(s, steps, WillTake(s))
    decreases steps
  {
    if !s.consumer.Ended? {
      DrainStep(s);
      DrainingFinishes(Step(s, NextMove(s)), steps - 1);
    }
  }

  /** Once the stream is closed or a null was received the generator is never stuck:
      on its own it takes all that was received, in order, or all up to the first
      null, yields its events, and returns. */
  lemma {:induction false} ClosedStreamDrains(s: State, received: seq<Option<Event>>)
    requires Inv(s, received) && (s.done || None in received)
    ensures var e := Drive(s, StepsLeft(s));
            && e.consumer.Ended? && e.yielded == Events(e.taken)
            && e.taken == if Ending(s.consumer) then s.taken else ThroughNull(received)
    ensures None !in received ==> ThroughNull(received) == received
  {
    FlowIsHeld(s, received);
    DrainingFinishes(s, StepsLeft(s));
    DriveFinishes(s, StepsLeft(s), WillTake(s));
    if !Ending(s.consumer) {
      ThroughNullSkips(s.taken, Held(s));
    }
    if None !in received {
      ThroughNullIsAll(received);
    }
  }
}
