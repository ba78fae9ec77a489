/**
 * The publisher of the integration example: it redelivers what is pending, takes the next number from
 * the outbox, stores the event, delivers it, and acknowledges it if the delivery returns.
 *
 * It inherits its delivery from the base agent. So with a client that raises when a delivery fails it is
 * a worker of the delivery protocol and loses nothing, and with one that reports in its result it
 * acknowledges events that nobody applied.
 */
module PersistentAgents {
  import opened Sequences
  import opened Text
  import opened Outbox
  import opened OutboxBackends
  import opened Recovery
  import opened Receiver
  import Base = BaseAgents
  import Protocol = DeliveryProtocol

  type World = Base.World

  type Net = Base.Net

  datatype Published = TaskIdMissing | EventRejected | DeliveryRaised | Sent

  function Acked(w: World, task: string, id: string): World {
    w.(box := Acknowledge(w.box, task, id).0)
  }

  function RedeliverOne(w: World, task: string, e: Event, net: Net): World {
    var (sent, returned) := Base.Deliver(w, task, e, net);
    if returned then Acked(sent, task, e.id) else sent
  }

  /** Deliver each pending event; a delivery that raises leaves its event pending. */
  function Redeliver(w: World, task: string, pending: seq<Event>, net: Net): World
    decreases |pending|
  {
    if pending == [] then w else Redeliver(RedeliverOne(w, task, pending[0], net), task, pending[1..], net)
  }

  /** Deliver a stored event, and acknowledge it if the delivery returns. */
  function DeliverNew(w: World, task: string, e: Event, net: Net): (World, Published) {
    var (sent, returned) := Base.Deliver(w, task, e, net);
    if returned then (Acked(sent, task, e.id), Sent) else (sent, DeliveryRaised)
  }

  function Numbered(w: World, task: string, draft: Event): Event {
    draft.(seqNo := GetNextSequence(w.box, task))
  }

  /** Number and store a new event, and deliver it. */
  function PublishNew(w: World, task: string, draft: Event, net: Net): (World, Published) {
    var e := Numbered(w, task, draft);
    var (stored, error) := StoreOutcome(w.box, task, e);
    if error.Some? then (w, EventRejected) else DeliverNew(w.(box := stored), task, e, net)
  }

  function Publish(w: World, rawTask: string, draft: Event, net: Net): (World, Published) {
    var task := Strip(rawTask);
    if task == "" then (w, TaskIdMissing)
    else PublishNew(Redeliver(w, task, GetPending(w.box, task), net), task, draft, net)
  }

  /**
   * What a publication comes to: a blank task is refused before anything is delivered, an event that the schema
   * does not accept after the pending ones were, and any other is stored, and sent or not.
   */
  lemma PublishedAs(w: World, rawTask: string, draft: Event, net: Net)
    ensures var (after, published) := Publish(w, rawTask, draft, net);
            var accepted := draft.schemaOk && IsSchemaId(draft.id);
            var delivered := Redeliver(w, Strip(rawTask), GetPending(w.box, Strip(rawTask)), net);
            && (published == TaskIdMissing <==> Strip(rawTask) == "")
            && (Strip(rawTask) == "" ==> after == w)
            && (Strip(rawTask) != "" ==>
                  && (published == EventRejected <==> !accepted)
                  && (!accepted ==> after == delivered)
                  && (accepted ==> after.sends == delivered.sends + 1)
                  && (published == Sent <==> accepted && Returns(net, delivered.sends))
                  && (published == DeliveryRaised <==> accepted && !Returns(net, delivered.sends)))
  {
    StripTrims(rawTask);
  }

  // ---------------------------------------------------------------------------
  // Redelivery is the recovery of one task
  // ---------------------------------------------------------------------------

  /** Whether the n-th delivery returns. */
  predicate Returns(net: Net, n: int) {
    net.client.ReportsInResult? || net.fate(n) == AppliedAcked
  }

  type Raises = string -> bool

  /** `raises` tells by id which of the deliveries of `events`, from the n-th on, raise. */
  ghost predicate Agrees(raises: Raises, net: Net, n: int, events: seq<Event>) {
    forall k :: 0 <= k < |events| ==> (raises(events[k].id) <==> !Returns(net, n + k))
  }

  ghost predicate DistinctEvents(events: seq<Event>) {
    forall i, j :: 0 <= i < j < |events| ==> events[i].id != events[j].id
  }

  /** Events with different ids can be told apart in this way. */
  lemma {:induction false} SomeRaisesAgrees(net: Net, n: int, events: seq<Event>) returns (raises: Raises)
    requires DistinctEvents(events)
    ensures Agrees(raises, net, n, events)
  {
    if events == [] {
      raises := (id: string) => false;
    } else {
      var last := |events| - 1;
      var front := SomeRaisesAgrees(net, n, events[..last]);
      var id, raised := events[last].id, !Returns(net, n + last);
      raises := (x: string) => if x == id then raised else front(x);
      forall k | 0 <= k < |events| ensures raises(events[k].id) <==> !Returns(net, n + k) {
        if k < last {
          assert events[..last][k] == events[k];
        }
      }
    }
  }

  function AsOracle(raises: Raises): Oracle {
    Oracle((task: string, id: string) => if raises(id) then Raised else Delivered(false), (n: int) => false, false)
  }

  /** The example's loop acknowledges the events that the recovery service's loop acknowledges. */
  lemma {:induction false} RedeliverIsTheWalk(w: World, box: Box, walk: Walk, task: string, pending: seq<Event>,
                                              net: Net, raises: Raises)
    requires !walk.raised && w.box == AckAll(box, task, walk.delivered) && Agrees(raises, net, w.sends, pending)
    ensures Redeliver(w, task, pending, net).box
         == AckAll(box, task, DeliverEvents(walk, task, pending, AsOracle(raises)).delivered)
    decreases |pending|
  {
    if pending == [] {
    } else {
      var e, rest := pending[0], pending[1..];
      var next := RedeliverOne(w, task, e, net);
      AgreesFirst(raises, net, w.sends, pending);
      AckOneMore(box, task, walk.delivered, e.id);
      RedeliverIsTheWalk(next, box, After(walk, e.id, AsOracle(raises).client(task, e.id)), task, rest, net, raises);
    }
  }

  lemma AgreesFirst(raises: Raises, net: Net, n: int, events: seq<Event>)
    requires events != [] && Agrees(raises, net, n, events)
    ensures raises(events[0].id) == !Returns(net, n) && Agrees(raises, net, n + 1, events[1..])
  {
    assert raises(events[0].id) <==> !Returns(net, n + 0);
    forall k | 0 <= k < |events[1..]| ensures raises(events[1..][k].id) <==> !Returns(net, n + 1 + k) {
      assert events[1..][k] == events[k + 1];
      assert raises(events[k + 1].id) <==> !Returns(net, n + (k + 1));
    }
  }

  function Raising(raises: Raises): Event -> bool {
    (e: Event) => raises(e.id)
  }

  lemma RedeliverIsRecovery(w: World, task: string, net: Net, raises: Raises)
    requires Agrees(raises, net, w.sends, GetPending(w.box, task))
    ensures Redeliver(w, task, GetPending(w.box, task), net).box == RecoverTask(w.box, 0, task, AsOracle(raises)).box
  {
    RedeliverIsTheWalk(w, w.box, Walk(1, [], 0, false), task, GetPending(w.box, task), net, raises);
  }

  /** What raised stays pending, in its order. */
  lemma RedeliverLeavesTheRaised(w: World, task: string, net: Net, raises: Raises)
    requires Stocked(w.box) && Strip(task) == task != "" && TrimmedIds(PendingOf(w.box, task))
    requires Agrees(raises, net, w.sends, GetPending(w.box, task))
    ensures var after := Redeliver(w, task, GetPending(w.box, task), net);
            && PendingOf(after.box, task) == Filter(PendingOf(w.box, task), Raising(raises))
            && after.box.stored == w.box.stored
  {
    var o, events := AsOracle(raises), PendingOf(w.box, task);
    RedeliverIsRecovery(w, task, net, raises);
    DrainedStart(w.box);
    var gone := TaskDrains(w.box, w.box, 0, {}, task, o);
    assert NoneLeft(gone, task, events, o);
    forall e | e in events ensures Kept(gone, task)(e) == Raising(raises)(e) {
      assert Strip(e.id) == e.id;
      var p := (task, e.id);
      if p in gone {
        assert AckedBy(PendingOf(w.box, p.0), p.0, p.1, o);
      }
    }
    FilterAgree(events, Kept(gone, task), Raising(raises));
  }

  /** Some delivery of `id`, of those from the n-th on, reaches the receiver. */
  ghost predicate Reached(net: Net, n: int, events: seq<Event>, id: string) {
    exists k :: 0 <= k < |events| && events[k].id == id && net.fate(n + k) != NotApplied
  }

  lemma ReachedFirst(net: Net, n: int, events: seq<Event>, id: string)
    requires events != []
    ensures Reached(net, n, events, id) <==>
              (events[0].id == id && net.fate(n) != NotApplied) || Reached(net, n + 1, events[1..], id)
  {
    if Reached(net, n, events, id) {
      var k :| 0 <= k < |events| && events[k].id == id && net.fate(n + k) != NotApplied;
      if k > 0 {
        assert events[1..][k - 1].id == id && net.fate(n + 1 + (k - 1)) != NotApplied;
      }
    }
    if Reached(net, n + 1, events[1..], id) {
      var k :| 0 <= k < |events[1..]| && events[1..][k].id == id && net.fate(n + 1 + k) != NotApplied;
      assert events[k + 1].id == id && net.fate(n + (k + 1)) != NotApplied;
    }
    if events[0].id == id && net.fate(n) != NotApplied {
      assert events[0].id == id && net.fate(n + 0) != NotApplied;
    }
  }

  lemma {:induction false} RedeliverCounts(w: World, task: string, pending: seq<Event>, net: Net)
    ensures var after := Redeliver(w, task, pending, net);
            after.sends == w.sends + |pending| && after.box.stored == w.box.stored
    decreases |pending|
  {
    if pending == [] {
    } else {
      RedeliverCounts(RedeliverOne(w, task, pending[0], net), task, pending[1..], net);
    }
  }

  lemma DeliveryApplies(w: World, task: string, e: Event, net: Net, id: string)
    ensures Knows(RedeliverOne(w, task, e, net).applied, id)
       <==> Knows(w.applied, id) || (e.id == id && net.fate(w.sends) != NotApplied)
  {
    Base.ArriveInLane(w.applied, Item(task, e), task);
  }

  /** Redelivery applies what its deliveries bring to the receiver, and nothing else. */
  lemma {:induction false} RedeliverApplies(w: World, task: string, pending: seq<Event>, net: Net, id: string)
    ensures var after := Redeliver(w, task, pending, net);
            Knows(after.applied, id) <==> Knows(w.applied, id) || Reached(net, w.sends, pending, id)
    decreases |pending|
  {
    if pending == [] {
    } else {
      ReachedFirst(net, w.sends, pending, id);
      DeliveryApplies(w, task, pending[0], net, id);
      RedeliverApplies(RedeliverOne(w, task, pending[0], net), task, pending[1..], net, id);
    }
  }

  // ---------------------------------------------------------------------------
  // Numbers, and what is left pending
  // ---------------------------------------------------------------------------

  lemma {:induction false} RedeliverIsContinuous(w: World, task: string, pending: seq<Event>, net: Net,
                                                 history: seq<Event>)
    requires Continuous(w.box, task, history) && Strip(task) == task
    ensures Continuous(Redeliver(w, task, pending, net).box, task, history)
    decreases |pending|
  {
    if pending == [] {
    } else {
      var id := pending[0].id;
      AcknowledgeIsContinuous(w.box, task, history, id);
      RedeliverIsContinuous(RedeliverOne(w, task, pending[0], net), task, pending[1..], net, history);
    }
  }

  /** The event a call stores, if it stores one. */
  function Added(history: seq<Event>, draft: Event): seq<Event> {
    var e := draft.(seqNo := |history|);
    if SchemaValid(e) then [e] else []
  }

  lemma StoredIsContinuous(w: World, task: string, draft: Event, net: Net, history: seq<Event>)
    requires Continuous(w.box, task, history) && Strip(task) == task != ""
    ensures Continuous(PublishNew(w, task, draft, net).0.box, task, history + Added(history, draft))
  {
    var e := draft.(seqNo := |history|);
    NewBox(w, task, draft, net);
    if SchemaValid(e) {
      StoreIsContinuousIff(w.box, task, history, e);
      AcknowledgeIsContinuous(StoreIn(w.box, task, e), task, history + [e], e.id);
    } else {
      assert history + Added(history, draft) == history;
    }
  }

  /** The outbox after a new event: stored if the schema accepts it, and acknowledged if its delivery returns. */
  lemma NewBox(w: World, task: string, draft: Event, net: Net)
    requires Strip(task) == task != ""
    ensures var e := Numbered(w, task, draft);
            PublishNew(w, task, draft, net).0.box
            == if !SchemaValid(e) then w.box
               else if Returns(net, w.sends) then Acknowledge(StoreIn(w.box, task, e), task, e.id).0
               else StoreIn(w.box, task, e)
  {
  }

  /**
   * A publication, accepted or rejected, whatever becomes of its deliveries, keeps the numbers continuous:
   * the n-th event stored carries number n, and what is pending is sorted as it stands.
   */
  lemma PublishIsContinuous(w: World, rawTask: string, draft: Event, net: Net, history: seq<Event>)
    requires Strip(rawTask) != "" && Continuous(w.box, Strip(rawTask), history)
    ensures var after := Publish(w, rawTask, draft, net).0.box;
            && Continuous(after, Strip(rawTask), history + Added(history, draft))
            && GetPending(after, rawTask) == PendingOf(after, Strip(rawTask))
  {
    var task := Strip(rawTask);
    StripTrims(rawTask);
    var redelivered := Redeliver(w, task, GetPending(w.box, task), net);
    RedeliverIsContinuous(w, task, GetPending(w.box, task), net, history);
    StoredIsContinuous(redelivered, task, draft, net, history);
    ContinuousNeedsNoSort(Publish(w, rawTask, draft, net).0.box, task, history + Added(history, draft));
  }

  /** A new event stays pending if and only if its delivery raised; the others stay. */
  lemma NewEventStaysIfRaised(w: World, task: string, draft: Event, net: Net, history: seq<Event>)
    requires NextSeq(w.box, task) == |history| && Strip(task) == task != "" && Strip(draft.id) == draft.id
    requires forall e :: e in PendingOf(w.box, task) ==> e.id != draft.id
    ensures PendingOf(PublishNew(w, task, draft, net).0.box, task)
         == PendingOf(w.box, task) + if Returns(net, w.sends) then [] else Added(history, draft)
  {
    var e, left := draft.(seqNo := |history|), PendingOf(w.box, task);
    if SchemaValid(e) {
      SchemaIdStrips(e.id);
      FilterExtend(left, e, HasOtherId(e.id));
      FilterAll(left, HasOtherId(e.id));
      assert PendingOf(StoreIn(w.box, task, e), task) == left + [e];
    }
  }

  /** What redelivery leaves for the new event. */
  ghost predicate Redelivered(r: World, task: string, draft: Event, net: Net, events: seq<Event>, n: nat,
                              raises: Raises) {
    && PendingOf(r.box, task) == Filter(events, Raising(raises))
    && NextSeq(r.box, task) == n
    && (raises(draft.id) <==> !Returns(net, r.sends))
  }

  lemma AfterRedelivery(w: World, task: string, draft: Event, net: Net, events: seq<Event>, raises: Raises)
    requires Stocked(w.box) && Strip(task) == task != "" && TrimmedIds(events)
    requires GetPending(w.box, task) == PendingOf(w.box, task) == events
    requires Agrees(raises, net, w.sends, events + [draft])
    ensures Redelivered(Redeliver(w, task, events, net), task, draft, net, events, NextSeq(w.box, task), raises)
  {
    DraftAgrees(w, task, draft, net, events, raises);
    RedeliverLeavesTheRaised(w, task, net, raises);
  }

  lemma DraftAgrees(w: World, task: string, draft: Event, net: Net, events: seq<Event>, raises: Raises)
    requires Agrees(raises, net, w.sends, events + [draft])
    ensures Agrees(raises, net, w.sends, events)
    ensures raises(draft.id) <==> !Returns(net, Redeliver(w, task, events, net).sends)
  {
    RedeliverCounts(w, task, events, net);
    AgreesLast(raises, net, w.sends, events, draft);
  }

  lemma NewAfterRedelivery(r: World, task: string, draft: Event, net: Net, history: seq<Event>, events: seq<Event>,
                           raises: Raises)
    requires Redelivered(r, task, draft, net, events, |history|, raises)
    requires Strip(task) == task != "" && Strip(draft.id) == draft.id && forall e :: e in events ==> e.id != draft.id
    ensures PendingOf(PublishNew(r, task, draft, net).0.box, task)
         == Filter(events + Added(history, draft), Raising(raises))
  {
    NewEventStaysIfRaised(r, task, draft, net, history);
    AddedIfRaised(events, history, draft, raises);
  }

  /**
   * Over ids that stripping leaves alone, after a publication the pending events are those, the new one
   * included, whose delivery raised.
   */
  lemma PublishLeavesTheRaised(w: World, rawTask: string, draft: Event, net: Net, history: seq<Event>, raises: Raises)
    requires Stocked(w.box) && Strip(rawTask) != "" && Continuous(w.box, Strip(rawTask), history)
    requires TrimmedIds(PendingOf(w.box, Strip(rawTask))) && Strip(draft.id) == draft.id
    requires forall e :: e in PendingOf(w.box, Strip(rawTask)) ==> e.id != draft.id
    requires Agrees(raises, net, w.sends, PendingOf(w.box, Strip(rawTask)) + [draft])
    ensures PendingOf(Publish(w, rawTask, draft, net).0.box, Strip(rawTask))
         == Filter(PendingOf(w.box, Strip(rawTask)) + Added(history, draft), Raising(raises))
  {
    var task := Strip(rawTask);
    var events := PendingOf(w.box, task);
    StripTrims(rawTask);
    ContinuousNeedsNoSort(w.box, task, history);
    AfterRedelivery(w, task, draft, net, events, raises);
    NewAfterRedelivery(Redeliver(w, task, events, net), task, draft, net, history, events, raises);
  }

  lemma AddedIfRaised(events: seq<Event>, history: seq<Event>, draft: Event, raises: Raises)
    ensures Filter(events + Added(history, draft), Raising(raises))
         == Filter(events, Raising(raises)) + if raises(draft.id) then Added(history, draft) else []
  {
    if Added(history, draft) == [] {
      assert events + Added(history, draft) == events;
    } else {
      FilterExtend(events, draft.(seqNo := |history|), Raising(raises));
    }
  }

  lemma AgreesLast(raises: Raises, net: Net, n: int, events: seq<Event>, e: Event)
    requires Agrees(raises, net, n, events + [e])
    ensures Agrees(raises, net, n, events) && raises(e.id) == !Returns(net, n + |events|)
  {
    var all := events + [e];
    assert all[|events|] == e && (raises(all[|events|].id) <==> !Returns(net, n + |events|));
    forall k | 0 <= k < |events| ensures raises(events[k].id) <==> !Returns(net, n + k) {
      assert all[k] == events[k] && (raises(all[k].id) <==> !Returns(net, n + k));
    }
  }

  // ---------------------------------------------------------------------------
  // With a client that raises, the publisher is a worker of the delivery protocol
  // ---------------------------------------------------------------------------

  /** The state of the protocol shows the same outbox and the same receiver. */
  ghost predicate Shows(s: Protocol.State, w: World, accepted: seq<Item>) {
    s.box == w.box && s.applied == w.applied && s.accepted == accepted
  }

  lemma DeliveryIsARun(s: Protocol.State, w: World, task: string, queue: seq<Event>, net: Net)
    returns (steps: seq<Protocol.Step>)
    requires net.client.RaisesOnFailure? && queue != []
    requires Shows(s, w, s.accepted) && Protocol.At(s, 0) == Protocol.Sending(task, queue)
    ensures Shows(Protocol.Run(s, steps), RedeliverOne(w, task, queue[0], net), s.accepted)
    ensures Protocol.At(Protocol.Run(s, steps), 0) == Protocol.Sending(task, queue[1..])
  {
    var fate := net.fate(w.sends);
    var send := Protocol.Send(0, fate);
    var next := if fate == AppliedAcked then Protocol.Confirm(0) else Protocol.GiveUp(0);
    steps := [send, next];
    Protocol.RunTwo(s, send, next);
  }

  lemma {:induction false} RedeliverIsARun(s: Protocol.State, w: World, task: string, queue: seq<Event>, net: Net)
    returns (steps: seq<Protocol.Step>)
    requires net.client.RaisesOnFailure?
    requires Shows(s, w, s.accepted) && Protocol.At(s, 0) == Protocol.Sending(task, queue)
    ensures Shows(Protocol.Run(s, steps), Redeliver(w, task, queue, net), s.accepted)
    decreases |queue|
  {
    if queue == [] {
      steps := [];
    } else {
      var first := DeliveryIsARun(s, w, task, queue, net);
      var mid := Protocol.Run(s, first);
      var more := RedeliverIsARun(mid, RedeliverOne(w, task, queue[0], net), task, queue[1..], net);
      Protocol.RunConcat(s, first, more);
      steps := first + more;
    }
  }

  /** What a publication adds to the accepted events. */
  function AcceptedBy(w: World, rawTask: string, draft: Event): seq<Item> {
    var task := Strip(rawTask);
    var e := Numbered(w, task, draft);
    if task == "" || !SchemaValid(e) then [] else [Item(task, e)]
  }

  lemma NewIsARun(s: Protocol.State, w: World, task: string, draft: Event, net: Net) returns (steps: seq<Protocol.Step>)
    requires net.client.RaisesOnFailure? && Strip(task) == task != ""
    requires Shows(s, w, s.accepted) && !Protocol.KnowsStripped(s.accepted, draft.id)
    ensures Shows(Protocol.Run(s, steps), PublishNew(w, task, draft, net).0, s.accepted + AcceptedBy(w, task, draft))
  {
    var e := Numbered(w, task, draft);
    if SchemaValid(e) {
      var store := Protocol.Store(0, task, e);
      var stored := Protocol.Do(s, store);
      assert Protocol.Run(s, [store]) == stored by {
        assert [store][1..] == [];
      }
      var queued := w.(box := StoreIn(w.box, task, e));
      assert Shows(stored, queued, s.accepted + [Item(task, e)]);
      var more := DeliveryIsARun(stored, queued, task, [e], net);
      Protocol.RunConcat(s, [store], more);
      steps := [store] + more;
    } else {
      steps := [];
      assert s.accepted + [] == s.accepted;
    }
  }

  /** With a client that raises, a publication is a run of one worker: scan, redeliver, store, deliver. */
  lemma PublishIsARun(s: Protocol.State, w: World, rawTask: string, draft: Event, net: Net)
    returns (steps: seq<Protocol.Step>)
    requires net.client.RaisesOnFailure?
    requires Shows(s, w, s.accepted) && !Protocol.KnowsStripped(s.accepted, draft.id)
    ensures Shows(Protocol.Run(s, steps), Publish(w, rawTask, draft, net).0, s.accepted + AcceptedBy(w, rawTask, draft))
  {
    var task := Strip(rawTask);
    if task == "" {
      steps := [];
      assert s.accepted + [] == s.accepted;
    } else {
      StripTrims(rawTask);
      var pending := GetPending(w.box, task);
      var scan := Protocol.Scan(0, task);
      var scanned := Protocol.Do(s, scan);
      assert Protocol.Run(s, [scan]) == scanned by {
        assert [scan][1..] == [];
      }
      var redelivered := Redeliver(w, task, pending, net);
      var first := RedeliverIsARun(scanned, w, task, pending, net);
      RedeliverCounts(w, task, pending, net);
      var more := NewIsARun(Protocol.Run(scanned, first), redelivered, task, draft, net);
      Protocol.RunConcat(scanned, first, more);
      Protocol.RunConcat(s, [scan], first + more);
      steps := [scan] + (first + more);
    }
  }

  // ---------------------------------------------------------------------------
  // Which clients lose no event
  // ---------------------------------------------------------------------------

  /** A call of `publish_event`; the id is the one that it generates. */
  datatype Draft = Draft(rawTask: string, event: Event)

  function RunAgent(drafts: seq<Draft>, net: Net): World {
    if drafts == [] then Base.FRESH
    else
      var d := drafts[|drafts| - 1];
      Publish(RunAgent(drafts[..|drafts| - 1], net), d.rawTask, d.event, net).0
  }

  /** Every event stored so far. */
  function Stored(drafts: seq<Draft>, net: Net): seq<Item> {
    if drafts == [] then []
    else
      var front, d := drafts[..|drafts| - 1], drafts[|drafts| - 1];
      Stored(front, net) + AcceptedBy(RunAgent(front, net), d.rawTask, d.event)
  }

  ghost predicate Generated(drafts: seq<Draft>) {
    && (forall i :: 0 <= i < |drafts| ==> IsGeneratedId(drafts[i].event.id))
    && (forall i, j :: 0 <= i < j < |drafts| ==> drafts[i].event.id != drafts[j].event.id)
  }

  /** Every stored event is pending or applied. */
  ghost predicate NothingLost(drafts: seq<Draft>, net: Net) {
    var w := RunAgent(drafts, net);
    forall m :: m in Stored(drafts, net) ==> m.event in PendingOf(w.box, m.task) || m in w.applied
  }

  lemma {:induction false} StoredIds(drafts: seq<Draft>, net: Net)
    ensures forall m :: m in Stored(drafts, net) ==> exists i :: 0 <= i < |drafts| && drafts[i].event.id == m.event.id
  {
    if drafts == [] {
    } else {
      var front, d := drafts[..|drafts| - 1], drafts[|drafts| - 1];
      StoredIds(front, net);
      forall m | m in Stored(drafts, net) ensures exists i :: 0 <= i < |drafts| && drafts[i].event.id == m.event.id {
        if m in Stored(front, net) {
          var i :| 0 <= i < |front| && front[i].event.id == m.event.id;
          assert drafts[i].event.id == m.event.id;
        } else {
          assert drafts[|drafts| - 1].event.id == m.event.id;
        }
      }
    }
  }

  lemma NextIdIsNew(drafts: seq<Draft>, net: Net)
    requires Generated(drafts) && drafts != []
    ensures !Protocol.KnowsStripped(Stored(drafts[..|drafts| - 1], net), drafts[|drafts| - 1].event.id)
  {
    var front, d := drafts[..|drafts| - 1], drafts[|drafts| - 1];
    var stored := Stored(front, net);
    StoredIds(front, net);
    GeneratedIdIsTrimmed(d.event.id);
    forall k | 0 <= k < |stored| ensures Strip(stored[k].event.id) != Strip(d.event.id) {
      assert stored[k] in stored;
      var i :| 0 <= i < |front| && front[i].event.id == stored[k].event.id;
      GeneratedIdIsTrimmed(drafts[i].event.id);
      assert drafts[i].event.id != drafts[|drafts| - 1].event.id;
    }
  }

  /** With a client that raises, every run of the agent is a run of the delivery protocol. */
  lemma {:induction false} AgentIsARun(drafts: seq<Draft>, net: Net) returns (steps: seq<Protocol.Step>)
    requires Generated(drafts) && net.client.RaisesOnFailure?
    ensures Shows(Protocol.Run(Protocol.START, steps), RunAgent(drafts, net), Stored(drafts, net))
  {
    steps := [];
    if drafts == [] {
    } else {
      var front, d := drafts[..|drafts| - 1], drafts[|drafts| - 1];
      var first := AgentIsARun(front, net);
      NextIdIsNew(drafts, net);
      var s := Protocol.Run(Protocol.START, first);
      var more := PublishIsARun(s, RunAgent(front, net), d.rawTask, d.event, net);
      Protocol.RunConcat(Protocol.START, first, more);
      steps := first + more;
    }
  }

  lemma RaisingClientLosesNothing(drafts: seq<Draft>, net: Net)
    requires Generated(drafts) && net.client.RaisesOnFailure?
    ensures NothingLost(drafts, net) && DistinctIds(RunAgent(drafts, net).applied)
  {
    var steps := AgentIsARun(drafts, net);
    Protocol.EveryRunIsSafe(Protocol.START, steps);
    var s := Protocol.Run(Protocol.START, steps);
    forall m | m in Stored(drafts, net)
      ensures m.event in PendingOf(RunAgent(drafts, net).box, m.task) || m in RunAgent(drafts, net).applied
    {
      assert Protocol.Pending(s.box, m) || m in s.applied;
    }
  }

  /** One publication with a client that reports its failure: stored, not pending, not applied. */
  lemma OneEventLost() returns (drafts: seq<Draft>, m: Item)
    ensures Generated(drafts) && |drafts| == 1 && Stored(drafts, Base.UNREACHABLE) == [m]
    ensures var w := RunAgent(drafts, Base.UNREACHABLE);
            PendingOf(w.box, m.task) == [] && w.applied == []
  {
    var e := Event(GENERATED_ID, 0, "", true);
    var d := Draft("t", e);
    drafts, m := [d], Item("t", e);
    StripKeeps("t");
    NewlineIdIsAccepted();
    assert [d][..0] == [];
    assert RunAgent([], Base.UNREACHABLE) == Base.FRESH && Stored([], Base.UNREACHABLE) == [];
    assert RunAgent([d], Base.UNREACHABLE) == Publish(Base.FRESH, "t", e, Base.UNREACHABLE).0;
    UnreachablePublish(e);
  }

  lemma UnreachablePublish(e: Event)
    requires IsGeneratedId(e.id) && e.seqNo == 0 && Strip("t") == "t"
    ensures var w := Publish(Base.FRESH, "t", e, Base.UNREACHABLE).0;
            PendingOf(w.box, "t") == [] && w.applied == []
  {
    GeneratedIdIsTrimmed(e.id);
    assert GetPending(EMPTY, "t") == [];
    assert Redeliver(Base.FRESH, "t", [], Base.UNREACHABLE) == Base.FRESH;
    NewEventStaysIfRaised(Base.FRESH, "t", e, Base.UNREACHABLE, []);
  }

  /**
   * Every run keeps each stored event pending or applied if and only if the client raises when a delivery
   * fails.
   */
  lemma NothingIsLostIffClientRaises(client: Base.Client)
    ensures (forall drafts, net: Net :: Generated(drafts) && net.client == client ==> NothingLost(drafts, net))
       <==> client.RaisesOnFailure?
  {
    if client.RaisesOnFailure? {
      forall drafts, net: Net | Generated(drafts) && net.client == client ensures NothingLost(drafts, net) {
        RaisingClientLosesNothing(drafts, net);
      }
    } else {
      var drafts, m := OneEventLost();
      assert Base.UNREACHABLE.client == client && m in Stored(drafts, Base.UNREACHABLE);
      assert !NothingLost(drafts, Base.UNREACHABLE);
    }
  }

  // ---------------------------------------------------------------------------
  // The agent
  // ---------------------------------------------------------------------------

  class PersistentAgent {
    const outbox: MemoryOutbox

    constructor (outbox: MemoryOutbox)
      ensures this.outbox == outbox
    {
      this.outbox := outbox;
    }

    function Seen(transport: Base.Transport): World
      reads outbox, transport
    {
      Base.World(outbox.Abs(), transport.applied, transport.sends)
    }

    method RecoverPendingEvents(task: string, transport: Base.Transport)
      requires Canonical(outbox.Abs())
      modifies outbox, transport
      ensures Canonical(outbox.Abs())
      ensures Seen(transport) == Redeliver(old(Seen(transport)), task, GetPending(old(outbox.Abs()), task),
                                           transport.net)
    {
      var pending := outbox.GetPendingEvents(task);
      Tails(pending);
      ghost var goal := Redeliver(Seen(transport), task, pending, transport.net);
      for i := 0 to |pending|
        invariant Canonical(outbox.Abs())
        invariant goal == Redeliver(Seen(transport), task, pending[i..], transport.net)
      {
        assert pending[i..][0] == pending[i] && pending[i..][1..] == pending[i + 1..];
        var returned := Base.DeliverEvent(task, pending[i], transport, outbox.Abs());
        if returned {
          var found := outbox.AcknowledgeEvent(task, pending[i].id);
        }
      }
    }

    method PublishEvent(rawTask: string, draft: Event, transport: Base.Transport) returns (published: Published)
      requires Canonical(outbox.Abs())
      modifies outbox, transport
      ensures Canonical(outbox.Abs())
      ensures (Seen(transport), published) == Publish(old(Seen(transport)), rawTask, draft, transport.net)
    {
      var task := Strip(rawTask);
      if task == "" {
        return TaskIdMissing;
      }
      RecoverPendingEvents(task, transport);
      var n := outbox.NextSequence(task);
      var event := draft.(seqNo := n);
      var error := outbox.StoreEvent(task, event);
      if error.Some? {
        return EventRejected;
      }
      var returned := Base.DeliverEvent(task, event, transport, outbox.Abs());
      if !returned {
        return DeliveryRaised;
      }
      var found := outbox.AcknowledgeEvent(task, event.id);
      return Sent;
    }
  }
}
