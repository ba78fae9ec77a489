/**
 * The base agent's publisher with its outbox in process memory, one publisher per task.
 *
 * Ids are built as evt_ and 32 hexadecimal digits, which stripping leaves alone, so the outbox compares
 * them as they are. The counter of a task is the `stored` entry of its box.
 */
module BaseAgents {
  import opened Sequences
  import opened Text
  import opened Outbox
  import opened Receiver

  /**
   * A client with `publish_event_with_retry_result` returns a result that the agent does not inspect;
   * the other clients raise when a delivery fails.
   */
  datatype Client = ReportsInResult | RaisesOnFailure

  /** The client, and the fate of the n-th delivery. */
  datatype Net = Net(client: Client, fate: int -> Fate)

  datatype World = World(box: Box, applied: seq<Item>, sends: int)

  const FRESH: World := World(EMPTY, [], 0)

  datatype Published = TaskIdMissing | DeliveryRaised | Sent

  /** The second result tells whether the delivery returned. */
  function Deliver(w: World, task: string, e: Event, net: Net): (World, bool) {
    var fate := net.fate(w.sends);
    (w.(applied := Arrive(w.applied, Item(task, e), fate), sends := w.sends + 1),
     net.client.ReportsInResult? || fate == AppliedAcked)
  }

  function Ack(w: World, task: string, id: string): World {
    w.(box := AckIn(w.box, task, id).0)
  }

  function Flush(w: World, task: string, pending: seq<Event>, net: Net): (World, bool)
    decreases |pending|
  {
    if pending == [] then (w, true)
    else
      var (sent, ok) := Deliver(w, task, pending[0], net);
      if ok then Flush(Ack(sent, task, pending[0].id), task, pending[1..], net) else (sent, false)
  }

  /** Deliver a new event that is already in the outbox. */
  function DeliverNew(w: World, task: string, e: Event, net: Net): (World, Published) {
    var (sent, ok) := Deliver(w, task, e, net);
    if ok then (Ack(sent, task, e.id), Sent) else (sent, DeliveryRaised)
  }

  function NewEvent(w: World, task: string, id: string, body: string): Event {
    Event(id, NextSeq(w.box, task), body, true)
  }

  function Enqueued(w: World, task: string, e: Event): World {
    w.(box := StoreIn(w.box, task, e))
  }

  function Publish(w: World, rawTask: string, id: string, body: string, net: Net): (World, Published) {
    var task := Strip(rawTask);
    if task == "" then (w, TaskIdMissing)
    else
      var (flushed, ok) := Flush(w, task, PendingOf(w.box, task), net);
      if !ok then (flushed, DeliveryRaised)
      else
        var e := NewEvent(flushed, task, id, body);
        DeliverNew(Enqueued(flushed, task, e), task, e, net)
  }

  /** A call of `publish_event`: the id is the one generated if the call gets as far. */
  datatype Draft = Draft(task: string, id: string, body: string)

  function RunAgent(drafts: seq<Draft>, net: Net): World {
    if drafts == [] then FRESH
    else
      var d := drafts[|drafts| - 1];
      Publish(RunAgent(drafts[..|drafts| - 1], net), d.task, d.id, d.body, net).0
  }

  ghost predicate FreshIds(drafts: seq<Draft>) {
    forall i, j :: 0 <= i < j < |drafts| ==> drafts[i].id != drafts[j].id
  }

  // ---------------------------------------------------------------------------
  // A client that raises: events are applied in order
  // ---------------------------------------------------------------------------

  function OfTask(task: string): Item -> bool {
    (m: Item) => m.task == task
  }

  /** What the receiver has applied for a task. */
  function AppliedFor(applied: seq<Item>, task: string): seq<Item> {
    Filter(applied, OfTask(task))
  }

  ghost predicate Numbered(items: seq<Item>) {
    forall i :: 0 <= i < |items| ==> items[i].event.seqNo == i
  }

  /** At most one event of the task is pending: the newest, and it is the only one that may be unapplied. */
  ghost predicate LaneOk(w: World, task: string) {
    var lane, pending, n := AppliedFor(w.applied, task), PendingOf(w.box, task), NextSeq(w.box, task);
    && Numbered(lane)
    && |pending| <= 1
    && (pending == [] ==> |lane| == n)
    && (pending != [] ==> pending[0].seqNo == n - 1 && |lane| == if Knows(w.applied, pending[0].id) then n else n - 1)
  }

  ghost predicate IdsUsed(w: World, used: set<string>) {
    && (forall i :: 0 <= i < |w.applied| ==> w.applied[i].event.id in used)
    && (forall t :: forall e :: e in PendingOf(w.box, t) ==> e.id in used)
  }

  /** No two tasks have pending events with the same id. */
  ghost predicate PendingApart(box: Box) {
    forall t, u :: forall e, f :: e in PendingOf(box, t) && f in PendingOf(box, u) && e.id == f.id ==> t == u
  }

  ghost predicate InOrder(w: World, used: set<string>) {
    IdsUsed(w, used) && PendingApart(w.box) && forall t :: LaneOk(w, t)
  }

  lemma ArriveInLane(applied: seq<Item>, m: Item, task: string)
    ensures AppliedFor(Receive(applied, m), task)
         == AppliedFor(applied, task) + if m.task == task && !Knows(applied, m.event.id) then [m] else []
    ensures forall id :: Knows(Receive(applied, m), id) <==> Knows(applied, id) || id == m.event.id
  {
    if !Knows(applied, m.event.id) {
      FilterExtend(applied, m, OfTask(task));
      var after := applied + [m];
      assert after[|applied|] == m;
      forall id | Knows(applied, id) ensures Knows(after, id) {
        var i :| 0 <= i < |applied| && applied[i].event.id == id;
        assert after[i].event.id == id;
      }
    }
  }

  /** Receiving the pending event of one task, once more or for the first time, keeps every lane in order. */
  lemma ArrivalKeepsLane(w: World, task: string, e: Event, t: string)
    requires LaneOk(w, task) && PendingOf(w.box, task) == [e]
    requires LaneOk(w, t) && (t != task && PendingOf(w.box, t) != [] ==> PendingOf(w.box, t)[0].id != e.id)
    ensures LaneOk(w.(applied := Receive(w.applied, Item(task, e))), t)
  {
    ArriveInLane(w.applied, Item(task, e), t);
  }

  lemma LaneIgnoresSends(w: World, sends: int, t: string)
    requires LaneOk(w, t)
    ensures LaneOk(w.(sends := sends), t)
  {
  }

  lemma ArrivalUses(w: World, used: set<string>, task: string, e: Event)
    requires IdsUsed(w, used) && e.id in used
    ensures IdsUsed(w.(applied := Receive(w.applied, Item(task, e))), used)
  {
  }

  lemma ArrivalInOrder(w: World, used: set<string>, task: string, e: Event)
    requires InOrder(w, used) && PendingOf(w.box, task) == [e]
    ensures InOrder(w.(applied := Receive(w.applied, Item(task, e))), used)
    ensures Knows(Receive(w.applied, Item(task, e)), e.id)
  {
    assert e in PendingOf(w.box, task);
    forall t ensures LaneOk(w.(applied := Receive(w.applied, Item(task, e))), t) {
      assert LaneOk(w, t) && LaneOk(w, task);
      if t != task && PendingOf(w.box, t) != [] {
        assert PendingOf(w.box, t)[0] in PendingOf(w.box, t);
      }
      ArrivalKeepsLane(w, task, e, t);
    }
    ArrivalUses(w, used, task, e);
    ArriveInLane(w.applied, Item(task, e), task);
  }

  /** Whatever becomes of a delivery of the pending event, the order holds. */
  lemma DeliverInOrder(w: World, used: set<string>, task: string, e: Event, net: Net)
    requires InOrder(w, used) && PendingOf(w.box, task) == [e]
    ensures var w' := Deliver(w, task, e, net).0;
            && InOrder(w', used) && w'.box == w.box
            && (net.fate(w.sends) != NotApplied ==> Knows(w'.applied, e.id))
  {
    ArrivalInOrder(w, used, task, e);
    var w' := Deliver(w, task, e, net).0;
    var arrived := w.(applied := w'.applied);
    assert InOrder(arrived, used);
    forall t ensures LaneOk(w', t) {
      LaneIgnoresSends(arrived, w'.sends, t);
    }
  }

  lemma AckInOrder(w: World, used: set<string>, task: string, e: Event)
    requires InOrder(w, used) && PendingOf(w.box, task) == [e] && Knows(w.applied, e.id)
    ensures InOrder(Ack(w, task, e.id), used) && PendingOf(Ack(w, task, e.id).box, task) == []
  {
    var w' := Ack(w, task, e.id);
    FilterOne(e, HasOtherId(e.id));
    assert PendingOf(w'.box, task) == [];
    assert forall t :: t != task ==> PendingOf(w'.box, t) == PendingOf(w.box, t);
    forall t ensures LaneOk(w', t) {
      assert LaneOk(w, t);
    }
  }

  lemma EnqueueInOrder(w: World, used: set<string>, task: string, id: string, body: string)
    requires InOrder(w, used) && PendingOf(w.box, task) == [] && id !in used
    ensures var e := NewEvent(w, task, id, body);
            InOrder(Enqueued(w, task, e), used + {id}) && PendingOf(Enqueued(w, task, e).box, task) == [e]
  {
    var e := NewEvent(w, task, id, body);
    var w' := Enqueued(w, task, e);
    assert PendingOf(w'.box, task) == [e];
    assert forall t :: t != task ==> PendingOf(w'.box, t) == PendingOf(w.box, t);
    assert !Knows(w.applied, id);
    forall t ensures LaneOk(w', t) {
      assert LaneOk(w, t);
    }
  }

  lemma MoreIdsUsed(w: World, used: set<string>, id: string)
    requires InOrder(w, used)
    ensures InOrder(w, used + {id})
  {
  }

  lemma FlushInOrder(w: World, used: set<string>, task: string, net: Net)
    requires InOrder(w, used) && net.client.RaisesOnFailure?
    ensures var (w', ok) := Flush(w, task, PendingOf(w.box, task), net);
            InOrder(w', used) && (ok ==> PendingOf(w'.box, task) == [])
  {
    var pending := PendingOf(w.box, task);
    assert LaneOk(w, task);
    if pending != [] {
      var e := pending[0];
      assert pending == [e] && pending[1..] == [];
      DeliverInOrder(w, used, task, e, net);
      var (sent, ok) := Deliver(w, task, e, net);
      if ok {
        AckInOrder(sent, used, task, e);
        assert Flush(w, task, pending, net) == Flush(Ack(sent, task, e.id), task, [], net);
      }
    }
  }

  lemma PublishInOrder(w: World, used: set<string>, d: Draft, net: Net)
    requires InOrder(w, used) && d.id !in used && net.client.RaisesOnFailure?
    ensures InOrder(Publish(w, d.task, d.id, d.body, net).0, used + {d.id})
  {
    var task := Strip(d.task);
    MoreIdsUsed(w, used, d.id);
    if task != "" {
      FlushInOrder(w, used, task, net);
      var (flushed, ok) := Flush(w, task, PendingOf(w.box, task), net);
      if ok {
        var e := NewEvent(flushed, task, d.id, d.body);
        EnqueueInOrder(flushed, used, task, d.id, d.body);
        var queued := Enqueued(flushed, task, e);
        DeliverInOrder(queued, used + {d.id}, task, e, net);
        if net.fate(queued.sends) == AppliedAcked {
          AckInOrder(Deliver(queued, task, e, net).0, used + {d.id}, task, e);
        }
      } else {
        MoreIdsUsed(flushed, used, d.id);
      }
    }
  }

  function IdsOf(drafts: seq<Draft>): set<string> {
    set d | d in drafts :: d.id
  }

  lemma {:induction false} RunInOrder(drafts: seq<Draft>, net: Net)
    requires FreshIds(drafts) && net.client.RaisesOnFailure?
    ensures InOrder(RunAgent(drafts, net), IdsOf(drafts))
  {
    if drafts == [] {
      assert forall t :: AppliedFor([], t) == [];
    } else {
      var front, d := drafts[..|drafts| - 1], drafts[|drafts| - 1];
      RunInOrder(front, net);
      assert drafts == front + [d];
      assert IdsOf(drafts) == IdsOf(front) + {d.id};
      PublishInOrder(RunAgent(front, net), IdsOf(front), d, net);
    }
  }

  /**
   * Over any run with a client that raises on failure, the events applied for a task are number 0 to
   * n-1 in that order; at most one event is pending, and it is the only numbered one that may be missing.
   */
  lemma AppliedInOrder(drafts: seq<Draft>, net: Net, task: string)
    requires FreshIds(drafts) && net.client.RaisesOnFailure?
    ensures var w := RunAgent(drafts, net);
            var lane, pending, n := AppliedFor(w.applied, task), PendingOf(w.box, task), NextSeq(w.box, task);
            && (forall i :: 0 <= i < |lane| ==> lane[i].event.seqNo == i)
            && |pending| <= 1 && n - |pending| <= |lane| <= n
            && (|lane| < n ==> pending[0].seqNo == n - 1 && !Knows(w.applied, pending[0].id))
  {
    RunInOrder(drafts, net);
    assert LaneOk(RunAgent(drafts, net), task);
  }

  // ---------------------------------------------------------------------------
  // A client whose result is not inspected: what is not applied is lost
  // ---------------------------------------------------------------------------

  function HasTask(): Draft -> bool {
    (d: Draft) => Strip(d.task) != ""
  }

  /** The drafts that became events. */
  function Accepted(drafts: seq<Draft>): seq<Draft> {
    Filter(drafts, HasTask())
  }

  ghost predicate WasSent(sent: seq<Draft>, id: string) {
    exists k :: 0 <= k < |sent| && sent[k].id == id
  }

  /** Nothing is ever pending, and of the events sent those are applied whose delivery reached the receiver. */
  ghost predicate Uninspected(w: World, sent: seq<Draft>, net: Net) {
    && w.box.pending == map[]
    && w.sends == |sent|
    && (forall i :: 0 <= i < |w.applied| ==> WasSent(sent, w.applied[i].event.id))
    && (forall k :: 0 <= k < |sent| ==> (Knows(w.applied, sent[k].id) <==> net.fate(k) != NotApplied))
  }

  /** With nothing pending and the result not inspected, a publication is one delivery. */
  lemma PublishIsOneSend(w: World, d: Draft, net: Net)
    requires w.box.pending == map[] && net.client.ReportsInResult? && Strip(d.task) != ""
    ensures var w' := Publish(w, d.task, d.id, d.body, net).0;
            && w'.box.pending == map[] && w'.sends == w.sends + 1
            && exists m: Item :: m.event.id == d.id && w'.applied == Arrive(w.applied, m, net.fate(w.sends))
  {
    var task := Strip(d.task);
    assert PendingOf(w.box, task) == [];
    assert Flush(w, task, [], net) == (w, true);
    var e := NewEvent(w, task, d.id, d.body);
    var queued := Enqueued(w, task, e);
    var w' := DeliverNew(queued, task, e, net).0;
    assert w' == Publish(w, d.task, d.id, d.body, net).0;
    assert PendingOf(queued.box, task) == [e];
    FilterOne(e, HasOtherId(e.id));
    assert w'.box.pending == map[];
    assert w'.applied == Arrive(w.applied, Item(task, e), net.fate(w.sends));
  }

  lemma PublishUninspected(w: World, sent: seq<Draft>, d: Draft, net: Net)
    requires Uninspected(w, sent, net) && net.client.ReportsInResult? && Strip(d.task) != ""
    requires forall k :: 0 <= k < |sent| ==> sent[k].id != d.id
    ensures Uninspected(Publish(w, d.task, d.id, d.body, net).0, sent + [d], net)
  {
    PublishIsOneSend(w, d, net);
    var w' := Publish(w, d.task, d.id, d.body, net).0;
    var m: Item :| m.event.id == d.id && w'.applied == Arrive(w.applied, m, net.fate(w.sends));
    SentUninspected(w, w', sent, d, m, net);
  }

  lemma SentUninspected(w: World, w': World, sent: seq<Draft>, d: Draft, m: Item, net: Net)
    requires Uninspected(w, sent, net) && forall k :: 0 <= k < |sent| ==> sent[k].id != d.id
    requires w'.box.pending == map[] && w'.sends == w.sends + 1
    requires m.event.id == d.id && w'.applied == Arrive(w.applied, m, net.fate(w.sends))
    ensures Uninspected(w', sent + [d], net)
  {
    var sent' := sent + [d];
    ArriveInLane(w.applied, m, "");
    assert !Knows(w.applied, d.id);
    AppliedWereSent(w.applied, w'.applied, sent, d, m, net.fate(w.sends));
    forall k | 0 <= k < |sent'| ensures Knows(w'.applied, sent'[k].id) <==> net.fate(k) != NotApplied {
      if k < |sent| {
        assert sent'[k] == sent[k];
      }
    }
  }

  lemma AppliedWereSent(before: seq<Item>, after: seq<Item>, sent: seq<Draft>, d: Draft, m: Item, fate: Fate)
    requires m.event.id == d.id && after == Arrive(before, m, fate)
    requires forall i :: 0 <= i < |before| ==> WasSent(sent, before[i].event.id)
    ensures forall i :: 0 <= i < |after| ==> WasSent(sent + [d], after[i].event.id)
  {
    forall i | 0 <= i < |after| ensures WasSent(sent + [d], after[i].event.id) {
      if i < |before| {
        var k :| 0 <= k < |sent| && sent[k].id == before[i].event.id;
        assert (sent + [d])[k].id == after[i].event.id;
      } else {
        assert (sent + [d])[|sent|].id == after[i].event.id;
      }
    }
  }

  lemma {:induction false} RunUninspected(drafts: seq<Draft>, net: Net)
    requires FreshIds(drafts) && net.client.ReportsInResult?
    ensures Uninspected(RunAgent(drafts, net), Accepted(drafts), net)
  {
    if drafts == [] {
    } else {
      var front, d := drafts[..|drafts| - 1], drafts[|drafts| - 1];
      var sent := Accepted(front);
      RunUninspected(front, net);
      if Strip(d.task) != "" {
        forall k | 0 <= k < |sent| ensures sent[k].id != d.id {
          assert sent[k] in sent && sent[k] in front;
          var j :| 0 <= j < |front| && front[j] == sent[k];
          assert drafts[j].id != drafts[|drafts| - 1].id;
        }
        PublishUninspected(RunAgent(front, net), sent, d, net);
      }
    }
  }

  /**
   * With a client that reports in its result, every event leaves the outbox, whatever its fate; all are
   * applied if and only if no delivery failed to reach the receiver.
   */
  lemma UninspectedResultsLoseEvents(drafts: seq<Draft>, net: Net)
    requires FreshIds(drafts) && net.client.ReportsInResult?
    ensures var w, sent := RunAgent(drafts, net), Accepted(drafts);
            && w.box.pending == map[]
            && (forall k :: 0 <= k < |sent| ==> (Knows(w.applied, sent[k].id) <==> net.fate(k) != NotApplied))
            && ((forall k :: 0 <= k < |sent| ==> Knows(w.applied, sent[k].id)) <==>
                forall k :: 0 <= k < |sent| ==> net.fate(k) != NotApplied)
  {
    RunUninspected(drafts, net);
  }

  // ---------------------------------------------------------------------------
  // Which clients lose no event
  // ---------------------------------------------------------------------------

  /** The k-th event of the task is applied or pending. */
  ghost predicate Accounted(w: World, task: string, k: int) {
    || (exists m :: m in w.applied && m.task == task && m.event.seqNo == k)
    || (exists e :: e in PendingOf(w.box, task) && e.seqNo == k)
  }

  /** Every event that was numbered is applied or pending. */
  ghost predicate NothingLost(w: World) {
    forall t, k :: 0 <= k < NextSeq(w.box, t) ==> Accounted(w, t, k)
  }

  lemma RaisingClientLosesNothing(drafts: seq<Draft>, net: Net)
    requires FreshIds(drafts) && net.client.RaisesOnFailure?
    ensures NothingLost(RunAgent(drafts, net))
  {
    var w := RunAgent(drafts, net);
    forall t, k | 0 <= k < NextSeq(w.box, t) ensures Accounted(w, t, k) {
      AppliedInOrder(drafts, net, t);
      var lane := AppliedFor(w.applied, t);
      if k < |lane| {
        assert lane[k] in lane;
      } else {
        assert PendingOf(w.box, t)[0] in PendingOf(w.box, t);
      }
    }
  }

  const UNREACHABLE: Net := Net(ReportsInResult, n => NotApplied)

  /** Ids as the agent builds them. */
  ghost predicate GeneratedIds(drafts: seq<Draft>) {
    forall i :: 0 <= i < |drafts| ==> IsGeneratedId(drafts[i].id)
  }

  const ONE_DRAFT: seq<Draft> := [Draft("t", GENERATED_ID, "")]

  /** One publication whose delivery does not reach the receiver: numbered, not pending, not applied. */
  lemma OneEventLost()
    ensures FreshIds(ONE_DRAFT) && GeneratedIds(ONE_DRAFT)
    ensures var w := RunAgent(ONE_DRAFT, UNREACHABLE);
            NextSeq(w.box, "t") == 1 && PendingOf(w.box, "t") == [] && w.applied == []
  {
    var d := ONE_DRAFT[0];
    TwoGeneratedIds();
    StripKeeps("t");
    assert ONE_DRAFT[..0] == [];
    assert RunAgent(ONE_DRAFT, UNREACHABLE) == Publish(FRESH, "t", GENERATED_ID, "", UNREACHABLE).0;
    PublishIsOneSend(FRESH, d, UNREACHABLE);
    assert Flush(FRESH, "t", [], UNREACHABLE) == (FRESH, true);
  }

  /** Every run accounts for every numbered event if and only if the client raises when a delivery fails. */
  lemma NothingIsLostIffClientRaises(client: Client)
    ensures (forall drafts, net: Net ::
               FreshIds(drafts) && GeneratedIds(drafts) && net.client == client ==> NothingLost(RunAgent(drafts, net)))
       <==> client.RaisesOnFailure?
  {
    if client.RaisesOnFailure? {
      forall drafts, net: Net | FreshIds(drafts) && GeneratedIds(drafts) && net.client == client
        ensures NothingLost(RunAgent(drafts, net))
      {
        RaisingClientLosesNothing(drafts, net);
      }
    } else {
      OneEventLost();
      assert UNREACHABLE.client == client;
      assert !Accounted(RunAgent(ONE_DRAFT, UNREACHABLE), "t", 0);
      assert !NothingLost(RunAgent(ONE_DRAFT, UNREACHABLE));
    }
  }

  // ---------------------------------------------------------------------------
  // The agent
  // ---------------------------------------------------------------------------

  /** The client, the network and the receiver behind it. */
  class Transport {
    const net: Net
    var applied: seq<Item>
    var sends: int

    constructor (net: Net)
      ensures this.net == net && applied == [] && sends == 0
    {
      this.net, applied, sends := net, [], 0;
    }

    method Send(task: string, e: Event) returns (fate: Fate)
      modifies this
      ensures fate == net.fate(old(sends)) && sends == old(sends) + 1
      ensures applied == Arrive(old(applied), Item(task, e), fate)
    {
      fate := net.fate(sends);
      sends := sends + 1;
      applied := Arrive(applied, Item(task, e), fate);
    }
  }

  /** `_deliver_event`, which the persistent agent inherits: whether the call of the client returns. */
  method DeliverEvent(task: string, e: Event, transport: Transport, ghost box: Box) returns (returned: bool)
    modifies transport
    ensures (World(box, transport.applied, transport.sends), returned)
         == Deliver(World(box, old(transport.applied), old(transport.sends)), task, e, transport.net)
  {
    var fate := transport.Send(task, e);
    match transport.net.client
    case ReportsInResult => return true;
    case RaisesOnFailure => return fate == AppliedAcked;
  }

  class BaseAgent {
    var seqByTask: map<string, nat>
    var outboxByTask: map<string, seq<Event>>

    constructor ()
      ensures Abs() == EMPTY
    {
      seqByTask, outboxByTask := map[], map[];
    }

    function Abs(): Box
      reads this
    {
      Box(outboxByTask, seqByTask)
    }

    function Seen(transport: Transport): World
      reads this, transport
    {
      World(Abs(), transport.applied, transport.sends)
    }

    /** The numbers handed out for a task are 0, 1, 2, ... */
    method NextSeqOf(task: string) returns (n: nat)
      modifies this`seqByTask
      ensures n == NextSeq(old(Abs()), task)
      ensures seqByTask == old(seqByTask)[task := n + 1]
    {
      n := if task in seqByTask then seqByTask[task] else 0;
      seqByTask := seqByTask[task := n + 1];
    }

    method EnqueueOutbox(task: string, e: Event)
      modifies this`outboxByTask
      ensures outboxByTask == old(outboxByTask)[task := PendingOf(old(Abs()), task) + [e]]
    {
      if task !in outboxByTask {
        outboxByTask := outboxByTask[task := []];
      }
      outboxByTask := outboxByTask[task := outboxByTask[task] + [e]];
    }

    method AckOutbox(task: string, id: string)
      modifies this`outboxByTask
      ensures Abs() == AckIn(old(Abs()), task, id).0
    {
      ghost var before := Abs();
      var pending := if task in outboxByTask then outboxByTask[task] else [];
      outboxByTask := outboxByTask[task := Filter(pending, HasOtherId(id))];
      if outboxByTask[task] == [] {
        outboxByTask := outboxByTask - {task};
      }
      assert outboxByTask == AckIn(before, task, id).0.pending;
    }

    method FlushOutbox(task: string, transport: Transport) returns (returned: bool)
      modifies this`outboxByTask, transport
      ensures (Seen(transport), returned)
           == Flush(old(Seen(transport)), task, PendingOf(old(Abs()), task), transport.net)
    {
      var pending := if task in outboxByTask then outboxByTask[task] else [];
      ghost var goal := Flush(Seen(transport), task, pending, transport.net);
      for i := 0 to |pending|
        invariant goal == Flush(Seen(transport), task, pending[i..], transport.net)
      {
        assert pending[i..][0] == pending[i] && pending[i..][1..] == pending[i + 1..];
        var ok := DeliverEvent(task, pending[i], transport, Abs());
        if !ok {
          return false;
        }
        AckOutbox(task, pending[i].id);
      }
      return true;
    }

    method PublishEvent(rawTask: string, id: string, body: string, transport: Transport) returns (published: Published)
      modifies this, transport
      ensures (Seen(transport), published) == Publish(old(Seen(transport)), rawTask, id, body, transport.net)
    {
      var task := Strip(rawTask);
      if task == "" {
        return TaskIdMissing;
      }
      var flushed := FlushOutbox(task, transport);
      if !flushed {
        return DeliveryRaised;
      }
      published := PublishNew(task, id, body, transport);
    }

    /** Number a new event, put it in the outbox, and deliver it. */
    method PublishNew(task: string, id: string, body: string, transport: Transport) returns (published: Published)
      modifies this, transport
      ensures var before := old(Seen(transport));
              var event := NewEvent(before, task, id, body);
              (Seen(transport), published) == DeliverNew(Enqueued(before, task, event), task, event, transport.net)
    {
      ghost var before := Seen(transport);
      var n := NextSeqOf(task);
      var event := Event(id, n, body, true);
      EnqueueOutbox(task, event);
      assert Seen(transport) == Enqueued(before, task, event);
      var delivered := DeliverEvent(task, event, transport, Abs());
      if !delivered {
        return DeliveryRaised;
      }
      AckOutbox(task, id);
      return Sent;
    }
  }
}
