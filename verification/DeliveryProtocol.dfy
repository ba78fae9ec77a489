/**
 * The delivery protocol as a transition system: workers store events in the shared outbox, send them,
 * acknowledge what was acknowledged to them, crash and recover, in any interleaving; the network loses,
 * delays and duplicates messages and acknowledgements.
 */
module DeliveryProtocol {
  import opened Sequences
  import opened Text
  import opened Outbox
  import opened Receiver
  import opened Recovery

  /** The volatile state of a worker: the events it is yet to send, first the one it is working on. */
  datatype Worker =
    | Idle
    | Sending(task: string, queue: seq<Event>)
    | Acking(task: string, queue: seq<Event>)

  /** The outbox, the events it ever accepted, the receiver, the messages ever sent, and the workers. */
  datatype State = State(
    box: Box,
    accepted: seq<Item>,
    applied: seq<Item>,
    wire: set<Item>,
    workers: map<int, Worker>)

  const START: State := State(EMPTY, [], [], {}, map[])

  datatype Step =
    | Store(worker: int, task: string, event: Event)
    | Scan(worker: int, task: string)
    | Send(worker: int, fate: Fate)
    | GiveUp(worker: int)
    | Confirm(worker: int)
    | Duplicate(message: Item)
    | Crash(worker: int)

  function At(s: State, worker: int): Worker {
    if worker in s.workers then s.workers[worker] else Idle
  }

  function Become(s: State, worker: int, w: Worker): State {
    s.(workers := s.workers[worker := w])
  }

  predicate Busy(w: Worker) {
    w.Sending? && w.queue != []
  }

  function DoStore(s: State, worker: int, task: string, event: Event): State {
    var (box, error) := StoreOutcome(s.box, task, event);
    if error.Some? then s
    else
      Become(s.(box := box, accepted := s.accepted + [Item(Strip(task), event)]),
             worker, Sending(Strip(task), [event]))
  }

  function DoSend(s: State, worker: int, fate: Fate): State {
    var w := At(s, worker);
    if !Busy(w) then s
    else
      var m := Item(w.task, w.queue[0]);
      var sent := s.(applied := Arrive(s.applied, m, fate), wire := s.wire + {m});
      if fate == AppliedAcked then Become(sent, worker, Acking(w.task, w.queue)) else sent
  }

  function DoConfirm(s: State, worker: int): State {
    var w := At(s, worker);
    if !w.Acking? || w.queue == [] then s
    else Become(s.(box := Acknowledge(s.box, w.task, w.queue[0].id).0), worker, Sending(w.task, w.queue[1..]))
  }

  /** Some item has this id, up to what stripping removes. */
  predicate KnowsStripped(items: seq<Item>, id: string) {
    exists i :: 0 <= i < |items| && Strip(items[i].event.id) == Strip(id)
  }

  /** A step that is not possible changes nothing. An event gets an id no accepted event has, even stripped. */
  function Do(s: State, step: Step): State {
    match step
    case Store(worker, task, event) =>
      if KnowsStripped(s.accepted, event.id) then s else DoStore(s, worker, task, event)
    case Scan(worker, task) => Become(s, worker, Sending(Strip(task), GetPending(s.box, task)))
    case Send(worker, fate) => DoSend(s, worker, fate)
    case GiveUp(worker) =>
      var w := At(s, worker);
      if Busy(w) then Become(s, worker, Sending(w.task, w.queue[1..])) else s
    case Confirm(worker) => DoConfirm(s, worker)
    case Duplicate(message) => if message in s.wire then s.(applied := Receive(s.applied, message)) else s
    case Crash(worker) => Become(s, worker, Idle)
  }

  function Run(s: State, steps: seq<Step>): State
    decreases |steps|
  {
    if steps == [] then s else Run(Do(s, steps[0]), steps[1..])
  }

  // ---------------------------------------------------------------------------
  // Safety of every run
  // ---------------------------------------------------------------------------

  ghost predicate WellFormed(m: Item) {
    SchemaValid(m.event) && Strip(m.task) == m.task != ""
  }

  ghost predicate Pending(box: Box, m: Item) {
    m.event in PendingOf(box, m.task)
  }

  /** A worker works on accepted events; what it confirms has been applied. */
  ghost predicate Honest(w: Worker, accepted: seq<Item>, applied: seq<Item>) {
    && (!w.Idle? ==> forall e :: e in w.queue ==> Item(w.task, e) in accepted)
    && (w.Acking? ==> w.queue != [] && Item(w.task, w.queue[0]) in applied)
  }

  /** Every accepted event is still pending or has been applied. */
  ghost predicate NothingLost(s: State) {
    forall m :: m in s.accepted ==> Pending(s.box, m) || m in s.applied
  }

  ghost predicate OnlyAccepted(s: State) {
    && (forall t, e :: e in PendingOf(s.box, t) ==> Item(t, e) in s.accepted)
    && (forall m :: m in s.wire ==> m in s.accepted)
    && (forall m :: m in s.accepted ==> WellFormed(m))
  }

  /** No two items have ids that differ only by what stripping removes. */
  ghost predicate StrippedApart(items: seq<Item>) {
    forall i, j :: 0 <= i < j < |items| ==> Strip(items[i].event.id) != Strip(items[j].event.id)
  }

  lemma ApartIsDistinct(items: seq<Item>)
    requires StrippedApart(items)
    ensures DistinctIds(items)
  {
  }

  lemma SameStrippedSameItem(items: seq<Item>, a: Item, b: Item)
    requires StrippedApart(items) && a in items && b in items && Strip(a.event.id) == Strip(b.event.id)
    ensures a == b
  {
    var i :| 0 <= i < |items| && items[i] == a;
    var j :| 0 <= j < |items| && items[j] == b;
    assert i == j;
  }

  lemma ApartExtend(items: seq<Item>, m: Item)
    requires StrippedApart(items) && !KnowsStripped(items, m.event.id)
    ensures StrippedApart(items + [m])
  {
  }

  /** No event is applied twice, and only accepted events are. */
  ghost predicate AppliedOnce(s: State) {
    StrippedApart(s.accepted) && DistinctIds(s.applied) && Includes(s.accepted, s.applied)
  }

  ghost predicate AllHonest(s: State) {
    forall n :: n in s.workers ==> Honest(s.workers[n], s.accepted, s.applied)
  }

  ghost predicate Safe(s: State) {
    AppliedOnce(s) && OnlyAccepted(s) && NothingLost(s) && AllHonest(s)
  }

  lemma SafeBecome(s: State, worker: int, w: Worker)
    requires Safe(s) && Honest(w, s.accepted, s.applied)
    ensures Safe(Become(s, worker, w))
  {
  }

  lemma SafeArrival(s: State, m: Item)
    requires Safe(s) && m in s.accepted
    ensures Safe(s.(applied := Receive(s.applied, m), wire := s.wire + {m}))
    ensures m in Receive(s.applied, m)
  {
    ApartIsDistinct(s.accepted);
    ReceiveAppliesOnce(s.accepted, s.applied, m);
  }

  lemma StoreAddsOne(b: Box, m: Item)
    ensures forall x :: Pending(StoreIn(b, m.task, m.event), x) <==> Pending(b, x) || x == m
  {
    var after := StoreIn(b, m.task, m.event);
    assert PendingOf(after, m.task) == PendingOf(b, m.task) + [m.event];
    assert forall t :: t != m.task ==> PendingOf(after, t) == PendingOf(b, t);
  }

  /** A well-formed event with a new id goes into the outbox and into the record. */
  lemma SafeAccepted(s: State, m: Item)
    requires Safe(s) && WellFormed(m) && !KnowsStripped(s.accepted, m.event.id)
    ensures Safe(s.(box := StoreIn(s.box, m.task, m.event), accepted := s.accepted + [m]))
  {
    var stored := s.(box := StoreIn(s.box, m.task, m.event), accepted := s.accepted + [m]);
    ApartExtend(s.accepted, m);
    StoreAddsOne(s.box, m);
    assert m in stored.accepted && Includes(stored.accepted, s.accepted);
    forall x | x in stored.accepted ensures Pending(stored.box, x) || x in s.applied {
      assert x == m || x in s.accepted;
    }
    forall t, e | e in PendingOf(stored.box, t) ensures Item(t, e) in stored.accepted {
      assert Pending(stored.box, Item(t, e));
    }
  }

  lemma SafeStore(s: State, worker: int, task: string, event: Event)
    requires Safe(s) && !KnowsStripped(s.accepted, event.id)
    ensures Safe(DoStore(s, worker, task, event))
  {
    if Strip(task) != "" && SchemaValid(event) {
      StripTrims(task);
      var m := Item(Strip(task), event);
      SafeAccepted(s, m);
      SafeBecome(s.(box := StoreIn(s.box, m.task, event), accepted := s.accepted + [m]),
                 worker, Sending(m.task, [event]));
    }
  }

  lemma SafeScan(s: State, worker: int, task: string)
    requires Safe(s)
    ensures Safe(Do(s, Scan(worker, task)))
  {
    SortedMembers(PendingOf(s.box, Strip(task)));
    SafeBecome(s, worker, Sending(Strip(task), GetPending(s.box, task)));
  }

  lemma SafeSend(s: State, worker: int, fate: Fate)
    requires Safe(s)
    ensures Safe(DoSend(s, worker, fate))
  {
    var w := At(s, worker);
    if Busy(w) {
      var m := Item(w.task, w.queue[0]);
      assert m in s.accepted;
      SafeArrival(s, m);
      var sent := s.(applied := Arrive(s.applied, m, fate), wire := s.wire + {m});
      assert Safe(sent);
      if fate == AppliedAcked {
        SafeBecome(sent, worker, Acking(w.task, w.queue));
      }
    }
  }

  /** An acknowledgement by the id of an item can only take out that item. */
  lemma OnlyItselfIsAcked(items: seq<Item>, m: Item, x: Item)
    requires StrippedApart(items) && m in items && x in items && x.event.id == Strip(m.event.id)
    ensures x == m
  {
    StripTrims(m.event.id);
    SameStrippedSameItem(items, x, m);
  }

  lemma AcknowledgeIsAckIn(b: Box, m: Item)
    requires WellFormed(m)
    ensures Acknowledge(b, m.task, m.event.id).0 == AckIn(b, m.task, Strip(m.event.id)).0
  {
    SchemaIdStrips(m.event.id);
  }

  /** What is acknowledged was applied, and its stripped id is on no other event, so nothing is lost. */
  lemma SafeAck(s: State, m: Item)
    requires Safe(s) && m in s.applied
    ensures Safe(s.(box := AckIn(s.box, m.task, Strip(m.event.id)).0))
  {
    var id := Strip(m.event.id);
    var box := AckIn(s.box, m.task, id).0;
    AckKeepsOthers(s.box, m.task, id);
    forall x | x in s.accepted ensures Pending(box, x) || x in s.applied {
      if x.event.id == id {
        OnlyItselfIsAcked(s.accepted, m, x);
      }
    }
  }

  lemma SafeConfirm(s: State, worker: int)
    requires Safe(s)
    ensures Safe(DoConfirm(s, worker))
  {
    var w := At(s, worker);
    if w.Acking? && w.queue != [] {
      var m := Item(w.task, w.queue[0]);
      assert m in s.accepted && m in s.applied && WellFormed(m);
      AcknowledgeIsAckIn(s.box, m);
      SafeAck(s, m);
      SafeBecome(s.(box := Acknowledge(s.box, w.task, m.event.id).0), worker, Sending(w.task, w.queue[1..]));
    }
  }

  lemma AckKeepsOthers(b: Box, task: string, id: string)
    ensures var after := AckIn(b, task, id).0;
            forall x {:trigger Pending(after, x)} {:trigger Pending(b, x)} ::
              Pending(after, x) <==> Pending(b, x) && !(x.task == task && x.event.id == id)
  {
  }

  lemma SafeStep(s: State, step: Step)
    requires Safe(s)
    ensures Safe(Do(s, step))
  {
    match step
    case Store(worker, task, event) =>
      if !KnowsStripped(s.accepted, event.id) {
        SafeStore(s, worker, task, event);
      }
    case Scan(worker, task) => SafeScan(s, worker, task);
    case Send(worker, fate) => SafeSend(s, worker, fate);
    case GiveUp(worker) =>
      var w := At(s, worker);
      if Busy(w) {
        SafeBecome(s, worker, Sending(w.task, w.queue[1..]));
      }
    case Confirm(worker) => SafeConfirm(s, worker);
    case Duplicate(message) =>
      if message in s.wire {
        SafeArrival(s, message);
        assert s.wire + {message} == s.wire;
      }
    case Crash(worker) => SafeBecome(s, worker, Idle);
  }

  /**
   * In every reachable state each stored event is pending or applied, none is applied twice, and
   * nothing is applied that was not stored.
   */
  lemma {:induction false} EveryRunIsSafe(s: State, steps: seq<Step>)
    requires Safe(s)
    ensures Safe(Run(s, steps))
    decreases |steps|
  {
    if steps == [] {
    } else {
      SafeStep(s, steps[0]);
      EveryRunIsSafe(Do(s, steps[0]), steps[1..]);
    }
  }

  lemma ExactlyOnce(steps: seq<Step>)
    ensures var s := Run(START, steps);
            && (forall m :: m in s.accepted ==> Pending(s.box, m) || m in s.applied)
            && (forall i, j :: 0 <= i < j < |s.applied| ==> s.applied[i].event.id != s.applied[j].event.id)
            && (forall m :: m in s.applied ==> m in s.accepted)
  {
    EveryRunIsSafe(START, steps);
  }

  // ---------------------------------------------------------------------------
  // A recovery pass is a run of one worker
  // ---------------------------------------------------------------------------

  /** A step of worker 0 that stores nothing. */
  predicate Recovers(step: Step) {
    match step
    case Store(_, _, _) => false
    case Duplicate(_) => false
    case Scan(worker, _) => worker == 0
    case Send(worker, _) => worker == 0
    case GiveUp(worker) => worker == 0
    case Confirm(worker) => worker == 0
    case Crash(worker) => worker == 0
  }

  ghost predicate RecoverySteps(steps: seq<Step>) {
    forall i :: 0 <= i < |steps| ==> Recovers(steps[i])
  }

  /** By these steps the worker takes the outbox of `s` to `box`. */
  ghost predicate Reaches(s: State, steps: seq<Step>, box: Box) {
    RecoverySteps(steps) && Run(s, steps).box == box && Run(s, steps).accepted == s.accepted
  }

  lemma {:induction false} RunConcat(s: State, a: seq<Step>, b: seq<Step>)
    ensures Run(s, a + b) == Run(Run(s, a), b)
    decreases |a|
  {
    if a == [] {
      assert a + b == b;
    } else {
      assert (a + b)[0] == a[0] && (a + b)[1..] == a[1..] + b;
      RunConcat(Do(s, a[0]), a[1..], b);
    }
  }

  lemma ReachesMore(s: State, a: seq<Step>, b: seq<Step>, mid: Box, box: Box)
    requires Reaches(s, a, mid) && Reaches(Run(s, a), b, box)
    ensures Reaches(s, a + b, box)
  {
    RunConcat(s, a, b);
  }

  lemma ReachesNone(s: State)
    ensures Reaches(s, [], s.box)
  {
  }

  lemma RunTwo(s: State, a: Step, b: Step)
    ensures Run(s, [a, b]) == Do(Do(s, a), b)
  {
    assert [a, b][1..] == [b] && [b][1..] == [];
    assert Run(Do(s, a), [b]) == Run(Do(Do(s, a), b), []);
  }

  /** A delivered event is sent and confirmed. */
  lemma SendAndConfirm(s: State, task: string, events: seq<Event>)
    requires At(s, 0) == Sending(task, events) && events != []
    ensures var steps := [Send(0, AppliedAcked), Confirm(0)];
            && Reaches(s, steps, Acknowledge(s.box, task, events[0].id).0)
            && At(Run(s, steps), 0) == Sending(task, events[1..])
  {
    RunTwo(s, Send(0, AppliedAcked), Confirm(0));
  }

  /** A failed delivery, applied or not, is given up. */
  lemma SendAndGiveUp(s: State, task: string, events: seq<Event>, fate: Fate)
    requires At(s, 0) == Sending(task, events) && events != [] && fate != AppliedAcked
    ensures var steps := [Send(0, fate), GiveUp(0)];
            && Reaches(s, steps, s.box)
            && At(Run(s, steps), 0) == Sending(task, events[1..])
  {
    RunTwo(s, Send(0, fate), GiveUp(0));
  }

  /** One delivery of the walk: two steps of the worker. */
  lemma DeliveryIsARun(s: State, w: Walk, box: Box, task: string, events: seq<Event>, o: Oracle, fate: Fate)
    returns (steps: seq<Step>)
    requires At(s, 0) == Sending(task, events) && events != [] && fate != AppliedAcked
    requires s.box == AckAll(box, task, w.delivered)
    ensures Reaches(s, steps, AckAll(box, task, After(w, events[0].id, o.client(task, events[0].id)).delivered))
    ensures At(Run(s, steps), 0) == Sending(task, events[1..])
  {
    if o.client(task, events[0].id).Delivered? {
      steps := [Send(0, AppliedAcked), Confirm(0)];
      SendAndConfirm(s, task, events);
      AckOneMore(box, task, w.delivered, events[0].id);
    } else {
      steps := [Send(0, fate), GiveUp(0)];
      SendAndGiveUp(s, task, events, fate);
    }
  }

  lemma {:induction false} WalkIsARun(s: State, w: Walk, box: Box, task: string, events: seq<Event>, o: Oracle,
                                      fate: Fate)
    returns (steps: seq<Step>)
    requires At(s, 0) == Sending(task, events) && fate != AppliedAcked
    requires s.box == AckAll(box, task, w.delivered)
    ensures Reaches(s, steps, AckAll(box, task, DeliverEvents(w, task, events, o).delivered))
    decreases |events|
  {
    if events == [] || w.raised || o.stop(w.polls) {
      steps := [];
      ReachesNone(s);
    } else {
      var w' := After(w, events[0].id, o.client(task, events[0].id));
      var end := DeliverEvents(w', task, events[1..], o).delivered;
      assert DeliverEvents(w, task, events, o).delivered == end;
      var first := DeliveryIsARun(s, w, box, task, events, o, fate);
      var more := WalkIsARun(Run(s, first), w', box, task, events[1..], o, fate);
      ReachesMore(s, first, more, Run(s, first).box, AckAll(box, task, end));
      steps := first + more;
    }
  }

  lemma TaskIsARun(s: State, polls: int, task: string, o: Oracle, fate: Fate) returns (steps: seq<Step>)
    requires Strip(task) == task && fate != AppliedAcked
    ensures Reaches(s, steps, RecoverTask(s.box, polls, task, o).box)
  {
    steps := [];
    var pending := GetPending(s.box, task);
    if !o.stop(polls) && pending != [] {
      var scanned := Do(s, Scan(0, task));
      assert Run(s, [Scan(0, task)]) == scanned by {
        assert [Scan(0, task)][1..] == [];
      }
      var more := WalkIsARun(scanned, Walk(polls + 1, [], 0, false), s.box, task, pending, o, fate);
      steps := [Scan(0, task)] + more;
      ReachesMore(s, [Scan(0, task)], more, s.box, RecoverTask(s.box, polls, task, o).box);
    }
  }

  lemma {:induction false} BatchIsARun(s: State, p: Pass, tasks: seq<string>, recover: Recoverer, o: Oracle, fate: Fate)
    returns (steps: seq<Step>)
    requires Describes(recover, o) && s.box == p.box && fate != AppliedAcked && forall t :: t in tasks ==> Strip(t) == t
    ensures Reaches(s, steps, RecoverBatch(p, tasks, recover, o.stop).box)
    decreases |tasks|
  {
    steps := [];
    if tasks != [] && !o.stop(p.polls) {
      var r := RecoverTask(p.box, p.polls + 1, tasks[0], o);
      var p' := Pass(r.box, r.polls, Add(p.totals, r.totals));
      BatchUnfolds(p.box, p.polls + 1, p.totals, tasks, recover, o.stop, r);
      steps := TaskIsARun(s, p.polls + 1, tasks[0], o, fate);
      var more := BatchIsARun(Run(s, steps), p', tasks[1..], recover, o, fate);
      ReachesMore(s, steps, more, r.box, RecoverBatch(p', tasks[1..], recover, o.stop).box);
      steps := steps + more;
    }
  }

  /**
   * Whatever a pass of the recovery service does to the outbox, a recovering worker of the protocol
   * does in some run; failed deliveries may have reached the receiver or not.
   */
  lemma {:induction false} PassIsARun(s: State, p: Pass, tasks: seq<string>, size: nat, recover: Recoverer, o: Oracle,
                                      fate: Fate)
    returns (steps: seq<Step>)
    requires Describes(recover, o)
    requires size >= 1 && s.box == p.box && fate != AppliedAcked && forall t :: t in tasks ==> Strip(t) == t
    ensures Reaches(s, steps, RecoverAll(p, tasks, size, recover, o.stop).box)
    decreases |tasks|
  {
    steps := [];
    if tasks != [] && !o.stop(p.polls) {
      var n := if size < |tasks| then size else |tasks|;
      var p' := p.(polls := p.polls + 1);
      var p'' := RecoverBatch(p', tasks[..n], recover, o.stop);
      steps := BatchIsARun(s, p', tasks[..n], recover, o, fate);
      var more := PassIsARun(Run(s, steps), p'', tasks[n..], size, recover, o, fate);
      ReachesMore(s, steps, more, p''.box, RecoverAll(p'', tasks[n..], size, recover, o.stop).box);
      steps := steps + more;
    }
  }

  lemma SafeIsStocked(s: State)
    requires Safe(s)
    requires Canonical(s.box)
    ensures Stocked(s.box)
  {
    forall t | t in s.box.pending ensures t != "" && Strip(t) == t {
      var e := s.box.pending[t][0];
      assert e in PendingOf(s.box, t);
      assert WellFormed(Item(t, e));
    }
    forall t, e | t in s.box.pending && e in s.box.pending[t] ensures SchemaValid(e) {
      assert e in PendingOf(s.box, t);
      assert WellFormed(Item(t, e));
    }
  }

  lemma {:induction false} RunIsCanonical(s: State, steps: seq<Step>)
    requires Canonical(s.box)
    ensures Canonical(Run(s, steps).box)
    decreases |steps|
  {
    if steps == [] {
    } else {
      RunIsCanonical(Do(s, steps[0]), steps[1..]);
    }
  }

  /**
   * From every reachable state, an uninterrupted recovery pass without a failed delivery leaves nothing
   * pending if and only if stripping leaves the pending ids alone, and then every stored event is applied,
   * exactly once.
   */
  lemma FailureFreeRecoveryAppliesEverything(steps: seq<Step>, tasks: seq<string>, size: nat, o: Oracle)
    returns (pass: seq<Step>)
    requires size >= 1 && Calm(o) && NoDuplicates(tasks)
    requires forall t :: t in tasks <==> t in Run(START, steps).box.pending
    requires PassResult(Run(START, steps).box, tasks, size, o).totals.failed == 0
    ensures Reaches(Run(START, steps), pass, PassResult(Run(START, steps).box, tasks, size, o).box)
    ensures var after := Run(START, steps + pass);
            && (NothingPending(after.box) <==> forall t :: TrimmedIds(PendingOf(Run(START, steps).box, t)))
            && (NothingPending(after.box) ==> SetOf(after.applied) == SetOf(after.accepted))
            && (NothingPending(after.box) ==> |after.applied| == |after.accepted|)
  {
    var s := Run(START, steps);
    EveryRunIsSafe(START, steps);
    RunIsCanonical(START, steps);
    SafeIsStocked(s);
    pass := PassIsARun(s, Pass(s.box, 0, ZERO), tasks, size, TaskRecoverer(o), o, NotApplied);
    RunConcat(START, steps, pass);
    EveryRunIsSafe(START, steps + pass);
    var after := Run(START, steps + pass);
    forall t ensures PendingOf(after.box, t) == [] <==> TrimmedIds(PendingOf(s.box, t)) {
      FailureFreePassEmptiesIff(s.box, tasks, size, o, t);
    }
    if NothingPending(after.box) {
      AllApplied(after);
    }
  }

  /** With nothing pending the applied events are the accepted ones. */
  lemma AllApplied(s: State)
    requires Safe(s) && NothingPending(s.box)
    ensures SetOf(s.applied) == SetOf(s.accepted) && |s.applied| == |s.accepted|
  {
    forall m | m in s.accepted ensures m in s.applied {
      assert PendingOf(s.box, m.task) == [];
      assert !Pending(s.box, m);
    }
    assert SetOf(s.applied) == SetOf(s.accepted);
    ApartIsDistinct(s.accepted);
    DistinctIdsNoDuplicates(s.applied);
    DistinctIdsNoDuplicates(s.accepted);
  }

  lemma DistinctIdsNoDuplicates(items: seq<Item>)
    requires DistinctIds(items)
    ensures |SetOf(items)| == |items|
  {
    assert NoDuplicates(items);
    NoDuplicatesSize(items);
  }
}
