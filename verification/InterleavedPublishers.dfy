/**
 * The base agent used by many publishers at once: the locks make taking a number, appending to the
 * outbox, acknowledging and copying the outbox atomic; everything else interleaves.
 */
module InterleavedPublishers {
  import opened Sequences
  import opened Text
  import opened Outbox
  import opened Receiver
  import opened BaseAgents

  /** Where a call of `publish_event` is; `DeliveredOld` and `DeliveredNew` are about to acknowledge. */
  datatype Caller =
    | Idle
    | Flushing(task: string, queue: seq<Event>)
    | DeliveredOld(task: string, queue: seq<Event>)
    | Numbered(task: string, event: Event)
    | Enqueued(task: string, event: Event)
    | DeliveredNew(task: string, event: Event)

  /** The outbox with the counters, the events numbered so far, the receiver, and the callers. */
  datatype State = State(box: Box, numbered: seq<Item>, applied: seq<Item>, callers: map<int, Caller>)

  const START: State := State(EMPTY, [], [], map[])

  datatype Step =
    | Begin(caller: int, rawTask: string)
    | TakeNumber(caller: int, id: string, body: string)
    | Append(caller: int)
    | Attempt(caller: int, fate: Fate)
    | Acknowledged(caller: int)

  function At(s: State, caller: int): Caller {
    if caller in s.callers then s.callers[caller] else Idle
  }

  function Become(s: State, caller: int, c: Caller): State {
    s.(callers := s.callers[caller := c])
  }

  function DoBegin(s: State, caller: int, rawTask: string): State {
    var task := Strip(rawTask);
    if !At(s, caller).Idle? || task == "" then s
    else Become(s, caller, Flushing(task, PendingOf(s.box, task)))
  }

  /** `_next_seq`; the new event gets a generated id that no event has. */
  function DoTakeNumber(s: State, caller: int, id: string, body: string): State {
    var c := At(s, caller);
    if !c.Flushing? || c.queue != [] || !IsGeneratedId(id) || Knows(s.numbered, id) then s
    else
      var n := NextSeq(s.box, c.task);
      var e := Event(id, n, body, true);
      Become(s.(box := Box(s.box.pending, s.box.stored[c.task := n + 1]), numbered := s.numbered + [Item(c.task, e)]),
             caller, Numbered(c.task, e))
  }

  function DoAppend(s: State, caller: int): State {
    var c := At(s, caller);
    if !c.Numbered? then s
    else
      Become(s.(box := s.box.(pending := s.box.pending[c.task := PendingOf(s.box, c.task) + [c.event]])),
             caller, Enqueued(c.task, c.event))
  }

  /** A delivery that fails raises, which ends the call. */
  function DoAttempt(s: State, caller: int, fate: Fate): State {
    match At(s, caller)
    case Flushing(task, queue) =>
      if queue == [] then s
      else
        Become(s.(applied := Arrive(s.applied, Item(task, queue[0]), fate)), caller,
               if fate == AppliedAcked then DeliveredOld(task, queue) else Idle)
    case Enqueued(task, event) =>
      Become(s.(applied := Arrive(s.applied, Item(task, event), fate)), caller,
             if fate == AppliedAcked then DeliveredNew(task, event) else Idle)
    case Idle => s
    case DeliveredOld(_, _) => s
    case Numbered(_, _) => s
    case DeliveredNew(_, _) => s
  }

  function Acked(s: State, task: string, id: string): State {
    s.(box := AckIn(s.box, task, id).0)
  }

  function DoAcknowledged(s: State, caller: int): State {
    match At(s, caller)
    case DeliveredOld(task, queue) =>
      if queue == [] then s else Become(Acked(s, task, queue[0].id), caller, Flushing(task, queue[1..]))
    case DeliveredNew(task, event) => Become(Acked(s, task, event.id), caller, Idle)
    case Idle => s
    case Flushing(_, _) => s
    case Numbered(_, _) => s
    case Enqueued(_, _) => s
  }

  /** A step that is not possible changes nothing. */
  function Do(s: State, step: Step): State {
    match step
    case Begin(caller, rawTask) => DoBegin(s, caller, rawTask)
    case TakeNumber(caller, id, body) => DoTakeNumber(s, caller, id, body)
    case Append(caller) => DoAppend(s, caller)
    case Attempt(caller, fate) => DoAttempt(s, caller, fate)
    case Acknowledged(caller) => DoAcknowledged(s, caller)
  }

  function Run(steps: seq<Step>): State {
    if steps == [] then START else Do(Run(steps[..|steps| - 1]), steps[|steps| - 1])
  }

  // ---------------------------------------------------------------------------
  // What every interleaving keeps
  // ---------------------------------------------------------------------------

  ghost predicate Pending(box: Box, m: Item) {
    m.event in PendingOf(box, m.task)
  }

  /** Some caller has numbered the event and not yet appended it. */
  ghost predicate Held(s: State, m: Item) {
    exists n :: n in s.callers && s.callers[n] == Numbered(m.task, m.event)
  }

  /** The numbers of a task are 0, 1, 2, ... without a gap or a repetition. */
  ghost predicate Contiguous(s: State, task: string) {
    var events := AppliedFor(s.numbered, task);
    |events| == NextSeq(s.box, task) && forall i :: 0 <= i < |events| ==> events[i].event.seqNo == i
  }

  ghost predicate Honest(c: Caller, numbered: seq<Item>, applied: seq<Item>) {
    match c
    case Idle => true
    case Flushing(task, queue) => forall e :: e in queue ==> Item(task, e) in numbered
    case DeliveredOld(task, queue) =>
      queue != [] && Item(task, queue[0]) in applied && forall e :: e in queue ==> Item(task, e) in numbered
    case Numbered(task, event) => Item(task, event) in numbered
    case Enqueued(task, event) => Item(task, event) in numbered
    case DeliveredNew(task, event) => Item(task, event) in applied
  }

  ghost predicate Unique(s: State) {
    DistinctIds(s.numbered) && DistinctIds(s.applied) && Includes(s.numbered, s.applied)
  }

  ghost predicate NothingLost(s: State) {
    forall m :: m in s.numbered ==> Held(s, m) || Pending(s.box, m) || m in s.applied
  }

  ghost predicate Safe(s: State) {
    && Unique(s)
    && (forall t, e :: e in PendingOf(s.box, t) ==> Item(t, e) in s.numbered)
    && NothingLost(s)
    && (forall n :: n in s.callers ==> Honest(s.callers[n], s.numbered, s.applied))
  }

  /** A caller that holds no event may go anywhere. */
  lemma SafeBecome(s: State, caller: int, c: Caller)
    requires Safe(s) && Honest(c, s.numbered, s.applied) && !At(s, caller).Numbered?
    ensures Safe(Become(s, caller, c))
  {
    var s' := Become(s, caller, c);
    forall m | Held(s, m) ensures Held(s', m) {
      var n :| n in s.callers && s.callers[n] == Numbered(m.task, m.event);
      assert s'.callers[n] == Numbered(m.task, m.event);
    }
  }

  lemma SafeNumber(s: State, caller: int, id: string, body: string)
    requires Safe(s)
    ensures Safe(DoTakeNumber(s, caller, id, body))
  {
    var c := At(s, caller);
    var s' := DoTakeNumber(s, caller, id, body);
    if s' != s {
      var e := Event(id, NextSeq(s.box, c.task), body, true);
      var m := Item(c.task, e);
      assert s'.numbered == s.numbered + [m] && m in s'.numbered && Includes(s'.numbered, s.numbered);
      DistinctExtend(s.numbered, m);
      assert forall t :: PendingOf(s'.box, t) == PendingOf(s.box, t);
      forall x | x in s'.numbered ensures Held(s', x) || Pending(s'.box, x) || x in s'.applied {
        if x == m {
          assert s'.callers[caller] == Numbered(m.task, m.event);
        } else if Held(s, x) {
          var n :| n in s.callers && s.callers[n] == Numbered(x.task, x.event);
          assert s'.callers[n] == Numbered(x.task, x.event);
        } else {
          assert Pending(s.box, x) || x in s.applied;
        }
      }
    }
  }

  lemma SafeAppend(s: State, caller: int)
    requires Safe(s)
    ensures Safe(DoAppend(s, caller))
  {
    var c := At(s, caller);
    if c.Numbered? {
      var m, s' := Item(c.task, c.event), DoAppend(s, caller);
      assert PendingOf(s'.box, m.task) == PendingOf(s.box, m.task) + [m.event];
      assert forall t :: t != m.task ==> PendingOf(s'.box, t) == PendingOf(s.box, t);
      forall x | x in s'.numbered ensures Held(s', x) || Pending(s'.box, x) || x in s'.applied {
        if Held(s, x) && x != m {
          var n :| n in s.callers && s.callers[n] == Numbered(x.task, x.event);
          assert s'.callers[n] == Numbered(x.task, x.event);
        }
      }
    }
  }

  lemma SafeArrival(s: State, m: Item, fate: Fate)
    requires Safe(s) && m in s.numbered
    ensures Safe(s.(applied := Arrive(s.applied, m, fate)))
    ensures fate != NotApplied ==> m in Arrive(s.applied, m, fate)
  {
    ReceiveAppliesOnce(s.numbered, s.applied, m);
    var s' := s.(applied := Arrive(s.applied, m, fate));
    forall x | x in s'.numbered ensures Held(s', x) || Pending(s'.box, x) || x in s'.applied {
      if Held(s, x) {
        var n :| n in s.callers && s.callers[n] == Numbered(x.task, x.event);
        assert s'.callers[n] == Numbered(x.task, x.event);
      }
    }
  }

  /** An acknowledged event was applied, and its id is on no other event. */
  lemma SafeAcked(s: State, m: Item)
    requires Safe(s) && m in s.applied
    ensures Safe(Acked(s, m.task, m.event.id))
    ensures forall x :: Pending(s.box, x) ==> Pending(Acked(s, m.task, m.event.id).box, x) || x in s.applied
  {
    var s' := Acked(s, m.task, m.event.id);
    forall x | Pending(s.box, x) ensures Pending(s'.box, x) || x in s.applied {
      assert x.event in PendingOf(s.box, x.task) && x in s.numbered;
      if x.task == m.task && x.event.id == m.event.id {
        SameIdSameItem(s.numbered, x, m);
      }
    }
    forall x | x in s'.numbered ensures Held(s', x) || Pending(s'.box, x) || x in s'.applied {
      if Held(s, x) {
        var n :| n in s.callers && s.callers[n] == Numbered(x.task, x.event);
        assert s'.callers[n] == Numbered(x.task, x.event);
      }
    }
  }

  lemma SafeAttempt(s: State, caller: int, fate: Fate)
    requires Safe(s)
    ensures Safe(DoAttempt(s, caller, fate))
  {
    match At(s, caller)
    case Flushing(task, queue) =>
      if queue != [] {
        assert queue[0] in queue;
        SafeArrival(s, Item(task, queue[0]), fate);
        SafeBecome(s.(applied := Arrive(s.applied, Item(task, queue[0]), fate)), caller,
                   if fate == AppliedAcked then DeliveredOld(task, queue) else Idle);
      }
    case Enqueued(task, event) =>
      SafeArrival(s, Item(task, event), fate);
      SafeBecome(s.(applied := Arrive(s.applied, Item(task, event), fate)), caller,
                 if fate == AppliedAcked then DeliveredNew(task, event) else Idle);
    case Idle =>
    case DeliveredOld(_, _) =>
    case Numbered(_, _) =>
    case DeliveredNew(_, _) =>
  }

  lemma SafeAcknowledged(s: State, caller: int)
    requires Safe(s)
    ensures Safe(DoAcknowledged(s, caller))
    ensures forall m :: Pending(s.box, m) ==> Pending(DoAcknowledged(s, caller).box, m) || m in s.applied
  {
    match At(s, caller)
    case DeliveredOld(task, queue) =>
      SafeAcked(s, Item(task, queue[0]));
      SafeBecome(Acked(s, task, queue[0].id), caller, Flushing(task, queue[1..]));
    case DeliveredNew(task, event) =>
      SafeAcked(s, Item(task, event));
      SafeBecome(Acked(s, task, event.id), caller, Idle);
    case Idle =>
    case Flushing(_, _) =>
    case Numbered(_, _) =>
    case Enqueued(_, _) =>
  }

  lemma SafeStep(s: State, step: Step)
    requires Safe(s)
    ensures Safe(Do(s, step))
  {
    match step
    case Begin(caller, rawTask) =>
      var task := Strip(rawTask);
      if At(s, caller).Idle? && task != "" {
        SafeBecome(s, caller, Flushing(task, PendingOf(s.box, task)));
      }
    case TakeNumber(caller, id, body) => SafeNumber(s, caller, id, body);
    case Append(caller) => SafeAppend(s, caller);
    case Attempt(caller, fate) => SafeAttempt(s, caller, fate);
    case Acknowledged(caller) => SafeAcknowledged(s, caller);
  }

  lemma NextNumber(s: State, m: Item, task: string)
    requires Contiguous(s, task) && m.event.seqNo == NextSeq(s.box, m.task)
    ensures var events := AppliedFor(s.numbered + [m], task);
            && |events| == NextSeq(s.box, task) + (if m.task == task then 1 else 0)
            && forall i :: 0 <= i < |events| ==> events[i].event.seqNo == i
  {
    FilterExtend(s.numbered, m, OfTask(task));
  }

  lemma ContiguousNumber(s: State, caller: int, id: string, body: string, task: string)
    requires Contiguous(s, task)
    ensures Contiguous(DoTakeNumber(s, caller, id, body), task)
  {
    var c := At(s, caller);
    if c.Flushing? && c.queue == [] && IsGeneratedId(id) && !Knows(s.numbered, id) {
      NextNumber(s, Item(c.task, Event(id, NextSeq(s.box, c.task), body, true)), task);
    }
  }

  /** Only taking a number changes the numbers, and it takes the next one. */
  lemma ContiguousStep(s: State, step: Step, task: string)
    requires Contiguous(s, task)
    ensures Contiguous(Do(s, step), task)
  {
    match step
    case TakeNumber(caller, id, body) => ContiguousNumber(s, caller, id, body, task);
    case Begin(_, _) =>
    case Append(_) =>
    case Attempt(_, _) =>
    case Acknowledged(_) =>
  }

  lemma {:induction false} EveryInterleavingIsSafe(steps: seq<Step>, task: string)
    ensures Safe(Run(steps)) && Contiguous(Run(steps), task)
  {
    if steps == [] {
    } else {
      var front := steps[..|steps| - 1];
      EveryInterleavingIsSafe(front, task);
      SafeStep(Run(front), steps[|steps| - 1]);
      ContiguousStep(Run(front), steps[|steps| - 1], task);
    }
  }

  /**
   * Under every interleaving of publishers whose client raises on failure, the numbers of a task are
   * unique and contiguous, and every numbered event is about to be enqueued, pending, or applied, once.
   */
  lemma NumbersAreContiguousAndNothingIsLost(steps: seq<Step>, task: string)
    ensures var s := Run(steps);
            var events := AppliedFor(s.numbered, task);
            && (forall i :: 0 <= i < |events| ==> events[i].event.seqNo == i)
            && NextSeq(s.box, task) == |events|
            && (forall m :: m in s.numbered ==> Held(s, m) || Pending(s.box, m) || m in s.applied)
            && (forall m :: m in s.applied ==> m in s.numbered) && DistinctIds(s.applied)
  {
    EveryInterleavingIsSafe(steps, task);
  }

  /** No step takes an event out of the outbox that the receiver has not applied. */
  lemma UndeliveredEventsStay(steps: seq<Step>, step: Step, m: Item)
    requires Pending(Run(steps).box, m) && m !in Run(steps).applied
    ensures Pending(Do(Run(steps), step).box, m)
  {
    var s := Run(steps);
    EveryInterleavingIsSafe(steps, m.task);
    match step
    case Acknowledged(caller) => SafeAcknowledged(s, caller);
    case Begin(_, _) =>
    case TakeNumber(_, _, _) =>
    case Append(_) =>
    case Attempt(_, _) =>
  }

  // ---------------------------------------------------------------------------
  // One caller per task at a time: events are applied in order
  // ---------------------------------------------------------------------------

  predicate OnTask(c: Caller, task: string) {
    !c.Idle? && c.task == task
  }

  /** The callers that are publishing for the task. */
  function Active(s: State, task: string): (r: set<int>)
    ensures forall n :: n in r <==> n in s.callers && OnTask(s.callers[n], task)
  {
    set n | n in s.callers && OnTask(s.callers[n], task)
  }

  /** The newest event is pending, and all others have been applied. */
  ghost predicate Waiting(events: seq<Item>, lane: seq<Item>, pending: seq<Event>) {
    && events != [] && pending == [events[|events| - 1].event]
    && (lane == events || lane == events[..|events| - 1])
  }

  ghost predicate Settled(events: seq<Item>, lane: seq<Item>, pending: seq<Event>) {
    (pending == [] && lane == events) || Waiting(events, lane, pending)
  }

  /** What the numbered, applied and pending events of a task are while its only caller is at `c`. */
  ghost predicate Fits(c: Caller, events: seq<Item>, lane: seq<Item>, pending: seq<Event>) {
    match c
    case Idle => Settled(events, lane, pending)
    case Flushing(_, queue) => queue == pending && Settled(events, lane, pending)
    case DeliveredOld(_, queue) => queue == pending && Waiting(events, lane, pending) && lane == events
    case Numbered(_, e) =>
      pending == [] && events != [] && events[|events| - 1].event == e && lane == events[..|events| - 1]
    case Enqueued(_, e) => Waiting(events, lane, pending) && events[|events| - 1].event == e
    case DeliveredNew(_, e) => Waiting(events, lane, pending) && events[|events| - 1].event == e && lane == events
  }

  ghost predicate FitsIn(c: Caller, s: State, task: string) {
    Fits(c, AppliedFor(s.numbered, task), AppliedFor(s.applied, task), PendingOf(s.box, task))
  }

  ghost predicate Ordered(s: State, task: string) {
    && (Active(s, task) == {} ==> FitsIn(Idle, s, task))
    && (forall n :: n in Active(s, task) ==> FitsIn(s.callers[n], s, task))
  }

  /** The same events of the task, numbered, applied and pending. */
  ghost predicate SameLane(s: State, s': State, task: string) {
    && AppliedFor(s'.numbered, task) == AppliedFor(s.numbered, task)
    && AppliedFor(s'.applied, task) == AppliedFor(s.applied, task)
    && PendingOf(s'.box, task) == PendingOf(s.box, task)
  }

  /** A caller that is not on the task, before or after, leaves the order of the task alone. */
  lemma OtherKeepsOrder(s: State, s': State, caller: int, c: Caller, task: string)
    requires Ordered(s, task) && SameLane(s, s', task) && s'.callers == s.callers[caller := c]
    requires !OnTask(At(s, caller), task) && !OnTask(c, task)
    ensures Ordered(s', task)
  {
    assert Active(s', task) == Active(s, task);
  }

  /** The only caller on the task moves to `c`. */
  lemma OnlyCallerKeepsOrder(s: State, s': State, caller: int, c: Caller, task: string)
    requires Active(s, task) <= {caller} && s'.callers == s.callers[caller := c]
    requires FitsIn(c, s', task) && (c.Idle? || c.task == task)
    ensures Ordered(s', task)
  {
    forall n | n in Active(s', task) ensures n == caller && c == s'.callers[n] {
      assert n != caller ==> n in Active(s, task);
    }
    if Active(s', task) == {} {
      assert caller !in Active(s', task);
      assert c.Idle?;
    }
  }

  lemma OnlyActive(s: State, task: string, caller: int)
    requires |Active(s, task)| <= 1 && caller in Active(s, task)
    ensures Active(s, task) == {caller}
  {
    SubsetSize({caller}, Active(s, task));
  }

  lemma LastIsNotBefore(events: seq<Item>, m: Item)
    requires events != [] && m == events[|events| - 1]
    requires forall i :: 0 <= i < |events| ==> events[i].event.seqNo == i
    ensures m !in events[..|events| - 1]
  {
  }

  /** What arrives of the newest event completes the lane, once. */
  lemma ArrivalCompletes(s: State, task: string, m: Item, fate: Fate)
    requires Unique(s) && Contiguous(s, task) && m.task == task
    requires var events, lane := AppliedFor(s.numbered, task), AppliedFor(s.applied, task);
             events != [] && m == events[|events| - 1] && (lane == events || lane == events[..|events| - 1])
    ensures AppliedFor(Arrive(s.applied, m, fate), task)
         == if fate == NotApplied then AppliedFor(s.applied, task) else AppliedFor(s.numbered, task)
  {
    var events, lane := AppliedFor(s.numbered, task), AppliedFor(s.applied, task);
    assert m in events && m in s.numbered;
    ArriveInLane(s.applied, m, task);
    if Knows(s.applied, m.event.id) {
      var i :| 0 <= i < |s.applied| && s.applied[i].event.id == m.event.id;
      SameIdSameItem(s.numbered, s.applied[i], m);
      assert m in lane;
      LastIsNotBefore(events, m);
    } else {
      assert m !in lane;
      assert events == events[..|events| - 1] + [m];
    }
  }

  lemma OrderedBegin(s: State, caller: int, rawTask: string, task: string)
    requires Ordered(s, task) && |Active(DoBegin(s, caller, rawTask), task)| <= 1
    ensures Ordered(DoBegin(s, caller, rawTask), task)
  {
    var s', u := DoBegin(s, caller, rawTask), Strip(rawTask);
    if At(s, caller).Idle? && u != "" {
      var c := Flushing(u, PendingOf(s.box, u));
      if u == task {
        OnlyActive(s', task, caller);
        assert Active(s, task) <= Active(s', task);
        assert caller !in Active(s, task);
        assert Active(s, task) == {};
        OnlyCallerKeepsOrder(s, s', caller, c, task);
      } else {
        OtherKeepsOrder(s, s', caller, c, task);
      }
    }
  }

  lemma OrderedNumber(s: State, caller: int, id: string, body: string, task: string)
    requires Ordered(s, task) && |Active(s, task)| <= 1
    ensures Ordered(DoTakeNumber(s, caller, id, body), task)
  {
    var c, s' := At(s, caller), DoTakeNumber(s, caller, id, body);
    if s' != s {
      var e := Event(id, NextSeq(s.box, c.task), body, true);
      var m := Item(c.task, e);
      FilterExtend(s.numbered, m, OfTask(task));
      if c.task == task {
        OnlyActive(s, task, caller);
        var events := AppliedFor(s.numbered, task);
        assert (events + [m])[..|events|] == events;
        OnlyCallerKeepsOrder(s, s', caller, Numbered(task, e), task);
      } else {
        assert AppliedFor(s.numbered, task) + [] == AppliedFor(s.numbered, task);
        OtherKeepsOrder(s, s', caller, Numbered(c.task, e), task);
      }
    }
  }

  lemma OrderedAppend(s: State, caller: int, task: string)
    requires Ordered(s, task) && |Active(s, task)| <= 1
    ensures Ordered(DoAppend(s, caller), task)
  {
    var c, s' := At(s, caller), DoAppend(s, caller);
    if c.Numbered? {
      if c.task == task {
        OnlyActive(s, task, caller);
        assert PendingOf(s'.box, task) == [c.event];
        OnlyCallerKeepsOrder(s, s', caller, Enqueued(task, c.event), task);
      } else {
        OtherKeepsOrder(s, s', caller, Enqueued(c.task, c.event), task);
      }
    }
  }

  /** A caller delivers `e`, and is at `c` afterwards. */
  lemma OrderedDelivery(s: State, caller: int, u: string, e: Event, fate: Fate, c: Caller, task: string)
    requires Unique(s) && Contiguous(s, task) && Ordered(s, task) && |Active(s, task)| <= 1
    requires OnTask(At(s, caller), u) && (c.Idle? || c.task == u)
    requires u == task ==> Waiting(AppliedFor(s.numbered, task), AppliedFor(s.applied, task), PendingOf(s.box, task))
    requires u == task ==> PendingOf(s.box, task) == [e]
    requires u == task && fate != NotApplied ==>
               Fits(c, AppliedFor(s.numbered, task), AppliedFor(s.numbered, task), [e])
    requires fate != AppliedAcked ==> c.Idle?
    ensures Ordered(Become(s.(applied := Arrive(s.applied, Item(u, e), fate)), caller, c), task)
  {
    var s' := Become(s.(applied := Arrive(s.applied, Item(u, e), fate)), caller, c);
    if u == task {
      var events := AppliedFor(s.numbered, task);
      assert events[|events| - 1] in events;
      OnlyActive(s, task, caller);
      ArrivalCompletes(s, task, Item(task, e), fate);
      OnlyCallerKeepsOrder(s, s', caller, c, task);
    } else {
      ArriveInLane(s.applied, Item(u, e), task);
      assert AppliedFor(s.applied, task) + [] == AppliedFor(s.applied, task);
      OtherKeepsOrder(s, s', caller, c, task);
    }
  }

  lemma OrderedAttempt(s: State, caller: int, fate: Fate, task: string)
    requires Unique(s) && Contiguous(s, task) && Ordered(s, task) && |Active(s, task)| <= 1
    ensures Ordered(DoAttempt(s, caller, fate), task)
  {
    match At(s, caller)
    case Flushing(u, queue) =>
      if queue != [] {
        if u == task {
          OnlyActive(s, task, caller);
          assert queue == [queue[0]];
        }
        OrderedDelivery(s, caller, u, queue[0], fate,
                        if fate == AppliedAcked then DeliveredOld(u, queue) else Idle, task);
      }
    case Enqueued(u, e) =>
      if u == task {
        OnlyActive(s, task, caller);
      }
      OrderedDelivery(s, caller, u, e, fate, if fate == AppliedAcked then DeliveredNew(u, e) else Idle, task);
    case Idle =>
    case DeliveredOld(_, _) =>
    case Numbered(_, _) =>
    case DeliveredNew(_, _) =>
  }

  /** A caller acknowledges `e`, and is at `c` afterwards. */
  lemma OrderedAck(s: State, caller: int, u: string, e: Event, c: Caller, task: string)
    requires Ordered(s, task) && |Active(s, task)| <= 1
    requires OnTask(At(s, caller), u) && (c == Idle || c == Flushing(u, []))
    requires u == task ==> PendingOf(s.box, task) == [e] && AppliedFor(s.applied, task) == AppliedFor(s.numbered, task)
    ensures Ordered(Become(Acked(s, u, e.id), caller, c), task)
  {
    var s' := Become(Acked(s, u, e.id), caller, c);
    if u == task {
      OnlyActive(s, task, caller);
      FilterOne(e, HasOtherId(e.id));
      assert PendingOf(s'.box, task) == [];
      OnlyCallerKeepsOrder(s, s', caller, c, task);
    } else {
      OtherKeepsOrder(s, s', caller, c, task);
    }
  }

  lemma OrderedAcknowledged(s: State, caller: int, task: string)
    requires Ordered(s, task) && |Active(s, task)| <= 1
    ensures Ordered(DoAcknowledged(s, caller), task)
  {
    match At(s, caller)
    case DeliveredOld(u, queue) =>
      if u == task {
        OnlyActive(s, task, caller);
      }
      if queue != [] {
        OldIsAcked(s, caller, u, queue, task);
      }
    case DeliveredNew(u, e) =>
      if u == task {
        OnlyActive(s, task, caller);
      }
      OrderedAck(s, caller, u, e, Idle, task);
    case Idle =>
    case Flushing(_, _) =>
    case Numbered(_, _) =>
    case Enqueued(_, _) =>
  }

  lemma OldIsAcked(s: State, caller: int, u: string, queue: seq<Event>, task: string)
    requires Ordered(s, task) && |Active(s, task)| <= 1 && queue != [] && At(s, caller) == DeliveredOld(u, queue)
    ensures Ordered(Become(Acked(s, u, queue[0].id), caller, Flushing(u, queue[1..])), task)
  {
    if u == task {
      OnlyActive(s, task, caller);
      assert queue[1..] == [];
      OrderedAck(s, caller, u, queue[0], Flushing(u, []), task);
    } else {
      OtherKeepsOrder(s, Become(Acked(s, u, queue[0].id), caller, Flushing(u, queue[1..])), caller,
                      Flushing(u, queue[1..]), task);
    }
  }

  lemma OrderedStep(s: State, step: Step, task: string)
    requires Safe(s) && Contiguous(s, task) && Ordered(s, task)
    requires |Active(s, task)| <= 1 && |Active(Do(s, step), task)| <= 1
    ensures Ordered(Do(s, step), task)
  {
    match step
    case Begin(caller, rawTask) => OrderedBegin(s, caller, rawTask, task);
    case TakeNumber(caller, id, body) => OrderedNumber(s, caller, id, body, task);
    case Append(caller) => OrderedAppend(s, caller, task);
    case Attempt(caller, fate) => OrderedAttempt(s, caller, fate, task);
    case Acknowledged(caller) => OrderedAcknowledged(s, caller, task);
  }

  /** At no time are more than `k` callers publishing for the task. */
  ghost predicate ActiveWithin(steps: seq<Step>, task: string, k: nat) {
    forall i :: 0 <= i <= |steps| ==> |Active(Run(steps[..i]), task)| <= k
  }

  lemma ActiveWithinFront(steps: seq<Step>, task: string, k: nat)
    requires ActiveWithin(steps, task, k) && steps != []
    ensures ActiveWithin(steps[..|steps| - 1], task, k)
    ensures |Active(Run(steps), task)| <= k && |Active(Run(steps[..|steps| - 1]), task)| <= k
  {
    var front := steps[..|steps| - 1];
    forall i | 0 <= i <= |front| ensures |Active(Run(front[..i]), task)| <= k {
      assert front[..i] == steps[..i];
    }
    assert steps[..|steps|] == steps && |Active(Run(steps[..|steps| - 1]), task)| <= k;
  }

  lemma {:induction false} OrderedRun(steps: seq<Step>, task: string)
    requires ActiveWithin(steps, task, 1)
    ensures Ordered(Run(steps), task)
  {
    if steps == [] {
      assert AppliedFor([], task) == [];
    } else {
      var front := steps[..|steps| - 1];
      ActiveWithinFront(steps, task, 1);
      OrderedRun(front, task);
      EveryInterleavingIsSafe(front, task);
      OrderedStep(Run(front), steps[|steps| - 1], task);
    }
  }

  /**
   * The events applied for the task are number 0, 1, 2, ... in that order; at most one is pending, and at
   * most the newest has not been applied.
   */
  ghost predicate InOrderOf(s: State, task: string) {
    var lane := AppliedFor(s.applied, task);
    && (forall i :: 0 <= i < |lane| ==> lane[i].event.seqNo == i)
    && |PendingOf(s.box, task)| <= 1
    && NextSeq(s.box, task) - 1 <= |lane| <= NextSeq(s.box, task)
  }

  lemma FitsInOrder(c: Caller, s: State, task: string)
    requires FitsIn(c, s, task) && Contiguous(s, task)
    ensures InOrderOf(s, task)
  {
  }

  lemma OrderedIsInOrder(s: State, task: string)
    requires Ordered(s, task) && Contiguous(s, task)
    ensures InOrderOf(s, task)
  {
    var active := Active(s, task);
    if active == {} {
      FitsInOrder(Idle, s, task);
    } else {
      var n := Member(active);
      FitsInOrder(s.callers[n], s, task);
    }
  }

  /**
   * In every interleaving, after every step, in the middle of calls and whatever other tasks' callers do:
   * while at most one caller publishes for a task, its events are applied in order.
   */
  lemma OneCallerKeepsOrder(steps: seq<Step>, task: string)
    requires ActiveWithin(steps, task, 1)
    ensures InOrderOf(Run(steps), task)
  {
    OrderedRun(steps, task);
    EveryInterleavingIsSafe(steps, task);
    OrderedIsInOrder(Run(steps), task);
  }

  lemma RunMore(steps: seq<Step>, step: Step)
    ensures Run(steps + [step]) == Do(Run(steps), step)
  {
    assert (steps + [step])[..|steps|] == steps;
  }

  lemma LetterIsNoSpace(c: char)
    requires 'a' <= c <= 'z'
    ensures !IsSpace(c)
  {
  }

  const FIRST: Event := Event(GENERATED_ID, 0, "", true)
  const SECOND: Event := Event(OTHER_ID, 1, "", true)

  ghost predicate ByTwo(steps: seq<Step>) {
    forall i :: 0 <= i < |steps| ==> steps[i].caller in {0, 1}
  }

  const BEGUN: State := State(EMPTY, [], [], map[0 := Flushing("t", [])])
  const TAKEN: State := State(Box(map[], map["t" := 1]), [Item("t", FIRST)], [], map[0 := Numbered("t", FIRST)])
  const JOINED: State := TAKEN.(callers := map[0 := Numbered("t", FIRST), 1 := Flushing("t", [])])

  lemma StartBegins()
    ensures Do(START, Begin(0, "t")) == BEGUN
  {
    LetterIsNoSpace('t');
    StripKeeps(['t']);
    assert "t" == ['t'];
  }

  lemma FirstTakes()
    ensures Do(BEGUN, TakeNumber(0, GENERATED_ID, "")) == TAKEN
  {
    TwoGeneratedIds();
  }

  lemma SecondJoins()
    ensures Do(TAKEN, Begin(1, "t")) == JOINED
  {
    LetterIsNoSpace('t');
    StripKeeps(['t']);
    assert "t" == ['t'];
  }

  /** Two callers have seen an empty outbox, and one of them has taken number 0. */
  lemma TwoPublishersStart() returns (steps: seq<Step>)
    ensures ByTwo(steps) && Run(steps) == JOINED
  {
    StartBegins();
    FirstTakes();
    SecondJoins();
    RunMore([], Begin(0, "t"));
    var one := [] + [Begin(0, "t")];
    RunMore(one, TakeNumber(0, GENERATED_ID, ""));
    var two := one + [TakeNumber(0, GENERATED_ID, "")];
    RunMore(two, Begin(1, "t"));
    steps := two + [Begin(1, "t")];
  }

  lemma SecondIsNumbered() returns (steps: seq<Step>)
    ensures ByTwo(steps) && At(Run(steps), 1) == Numbered("t", SECOND) && Run(steps).applied == []
  {
    steps := TwoPublishersStart();
    TwoGeneratedIds();
    RunMore(steps, TakeNumber(1, OTHER_ID, ""));
    steps := steps + [TakeNumber(1, OTHER_ID, "")];
  }

  lemma SecondIsEnqueued() returns (steps: seq<Step>)
    ensures ByTwo(steps) && At(Run(steps), 1) == Enqueued("t", SECOND) && Run(steps).applied == []
  {
    steps := SecondIsNumbered();
    RunMore(steps, Append(1));
    steps := steps + [Append(1)];
  }

  /** The order of one publisher is not kept by two: number 1 can be applied while 0 is not. */
  lemma TwoPublishersOutOfOrder() returns (steps: seq<Step>)
    ensures ByTwo(steps)
    ensures var lane := AppliedFor(Run(steps).applied, "t");
            |lane| == 1 && lane[0].event.seqNo == 1
  {
    var front := SecondIsEnqueued();
    steps := front + [Attempt(1, AppliedAcked)];
    AttemptLast(front, 1, AppliedAcked);
    FirstArrival(Run(front), 1, "t", SECOND);
  }

  lemma AttemptLast(steps: seq<Step>, caller: int, fate: Fate)
    ensures Run(steps + [Attempt(caller, fate)]) == DoAttempt(Run(steps), caller, fate)
  {
    RunMore(steps, Attempt(caller, fate));
  }

  lemma FirstArrival(s: State, caller: int, task: string, e: Event)
    requires At(s, caller) == Enqueued(task, e) && s.applied == []
    ensures AppliedFor(DoAttempt(s, caller, AppliedAcked).applied, task) == [Item(task, e)]
  {
    assert [] + [Item(task, e)] == [Item(task, e)];
    FilterOne(Item(task, e), OfTask(task));
  }

  lemma {:induction false} TwoCallers(steps: seq<Step>)
    requires ByTwo(steps)
    ensures Run(steps).callers.Keys <= {0, 1}
  {
    if steps == [] {
    } else {
      var front := steps[..|steps| - 1];
      TwoCallers(front);
      assert steps[|steps| - 1].caller in {0, 1};
    }
  }

  lemma TwoAreActive(steps: seq<Step>, task: string, k: nat)
    requires ByTwo(steps) && k >= 2
    ensures ActiveWithin(steps, task, k)
  {
    forall i | 0 <= i <= |steps| ensures |Active(Run(steps[..i]), task)| <= k {
      TwoCallers(steps[..i]);
      SubsetSize(Active(Run(steps[..i]), task), {0, 1});
    }
  }

  /** Every run with at most `k` callers per task at a time keeps the order if and only if `k` is at most 1. */
  lemma OrderKeptIffOneCaller(k: nat)
    ensures (forall steps, task :: ActiveWithin(steps, task, k) ==> InOrderOf(Run(steps), task)) <==> k <= 1
  {
    if k <= 1 {
      forall steps, task | ActiveWithin(steps, task, k) ensures InOrderOf(Run(steps), task) {
        OneCallerKeepsOrder(steps, task);
      }
    } else {
      var steps := TwoPublishersOutOfOrder();
      TwoAreActive(steps, "t", k);
      assert !InOrderOf(Run(steps), "t");
    }
  }
}
