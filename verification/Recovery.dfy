/**
 * The recovery service: after a restart, redeliver every pending event, task by task in batches, and
 * acknowledge the ones that were delivered.
 *
 * The client and the shutdown flag are oracles: what delivering an event of a task gives, and what the
 * n-th look at the flag shows.
 */
module Recovery {
  import opened Sequences
  import opened Text
  import opened Outbox
  import opened OutboxBackends

  // ---------------------------------------------------------------------------
  // Sequence gaps
  // ---------------------------------------------------------------------------

  function SeqNumbers(s: seq<Event>): set<int> {
    set e | e in s :: e.seqNo
  }

  /** The numbers from `lo` below `hi` that no event carries. */
  function Absent(s: seq<Event>, lo: int, hi: int): set<int> {
    set n | lo <= n < hi && n !in SeqNumbers(s)
  }

  ghost predicate IsLeast(s: seq<Event>, n: int) {
    n in SeqNumbers(s) && forall e :: e in s ==> n <= e.seqNo
  }

  ghost predicate IsGreatest(s: seq<Event>, n: int) {
    n in SeqNumbers(s) && forall e :: e in s ==> e.seqNo <= n
  }

  lemma {:induction false} AbsentFromNone(lo: int, hi: int)
    requires lo <= hi
    ensures |Absent([], lo, hi)| == hi - lo
    decreases hi - lo
  {
    if lo < hi {
      AbsentFromNone(lo, hi - 1);
      assert Absent([], lo, hi) == Absent([], lo, hi - 1) + {hi - 1};
    } else {
      assert Absent([], lo, hi) == {};
    }
  }

  /** Beyond every number of `s`, all numbers up to the next event are absent. */
  lemma AbsentBeyond(s: seq<Event>, lo: int, expected: int, cur: int)
    requires lo <= expected <= cur && forall e :: e in s ==> e.seqNo < expected
    ensures |Absent(s, lo, cur)| == |Absent(s, lo, expected)| + cur - expected
  {
    AbsentFromNone(expected, cur);
    assert Absent(s, lo, cur) == Absent(s, lo, expected) + Absent([], expected, cur);
  }

  /** An event at or before the end of the interval closes its own number. */
  lemma AbsentClosed(s: seq<Event>, e: Event, lo: int, hi: int)
    requires hi - 1 <= e.seqNo <= hi && (e.seqNo == hi - 1 ==> e.seqNo in SeqNumbers(s) || hi <= lo)
    ensures Absent(s + [e], lo, e.seqNo + 1) == Absent(s, lo, hi)
  {
    assert SeqNumbers(s + [e]) == SeqNumbers(s) + {e.seqNo};
  }

  lemma GapStep(t: seq<Event>, i: nat, lo: int, expected: int)
    requires i < |t| && SortedBySeq(t)
    requires lo == t[0].seqNo && expected == if i == 0 then lo else t[i - 1].seqNo + 1
    ensures |Absent(t[..i + 1], lo, t[i].seqNo + 1)|
         == |Absent(t[..i], lo, expected)| + (if t[i].seqNo > expected then t[i].seqNo - expected else 0)
  {
    assert t[..i + 1] == t[..i] + [t[i]];
    NoneBeyond(t, i);
    if i > 0 {
      assert t[i - 1] in t[..i];
    }
    GapAfter(t[..i], t[i], lo, expected);
  }

  lemma NoneBeyond(t: seq<Event>, i: nat)
    requires i < |t| && SortedBySeq(t)
    ensures forall e :: e in t[..i] ==> e.seqNo < t[if i == 0 then 0 else i - 1].seqNo + 1
    ensures i > 0 ==> t[i - 1].seqNo <= t[i].seqNo
  {
  }

  /** The gap between the events before `e`, which end before `expected`, and `e`. */
  lemma GapAfter(s: seq<Event>, e: Event, lo: int, expected: int)
    requires lo <= expected && expected - 1 <= e.seqNo && forall x :: x in s ==> x.seqNo < expected
    requires e.seqNo == expected - 1 ==> e.seqNo in SeqNumbers(s) || expected <= lo
    ensures |Absent(s + [e], lo, e.seqNo + 1)|
         == |Absent(s, lo, expected)| + (if e.seqNo > expected then e.seqNo - expected else 0)
  {
    if e.seqNo > expected {
      AbsentBeyond(s, lo, expected, e.seqNo);
      AbsentClosed(s, e, lo, e.seqNo);
    } else {
      AbsentClosed(s, e, lo, expected);
    }
  }

  /** The number of integers between the least and the greatest number in `s` that no event carries. */
  ghost predicate CountsGaps(s: seq<Event>, gaps: nat) {
    exists lo, hi :: IsLeast(s, lo) && IsGreatest(s, hi) && gaps == |Absent(s, lo, hi)|
  }

  /** Detected and resolved are the numbers between the least and the greatest that no event carries. */
  method DetectAndResolveSequenceGaps(events: seq<Event>) returns (detected: nat, resolved: nat)
    ensures detected == resolved == GapCount(events)
    ensures if events == [] then detected == 0 else CountsGaps(events, detected)
  {
    detected, resolved := 0, 0;
    if events == [] {
      return;
    }
    var t := StableSort(events);
    StableSortOrders(events);
    SortKeepsLength(events);
    detected, resolved := GapsInOrder(t);
    CountedAreAbsent(t);
    GapsBetween(events, t);
  }

  /** The number that would leave no gap before the i-th event. */
  function Expected(t: seq<Event>, i: nat): int
    requires i <= |t| && t != []
  {
    if i == 0 then t[0].seqNo else t[i - 1].seqNo + 1
  }

  function GapBefore(t: seq<Event>, i: nat): nat
    requires i < |t|
  {
    if t[i].seqNo > Expected(t, i) then t[i].seqNo - Expected(t, i) else 0
  }

  /** The gaps that the loop has counted before the i-th event. */
  function CountedGaps(t: seq<Event>, i: nat): nat
    requires i <= |t| && t != []
  {
    if i == 0 then 0 else CountedGaps(t, i - 1) + GapBefore(t, i - 1)
  }

  /** How many numbers before the i-th event no event carries. */
  function Unnumbered(t: seq<Event>, i: nat): nat
    requires i <= |t| && t != []
  {
    |Absent(t[..i], t[0].seqNo, Expected(t, i))|
  }

  lemma UnnumberedStep(t: seq<Event>, i: nat)
    requires i < |t| && SortedBySeq(t)
    ensures Unnumbered(t, 0) == 0
    ensures Unnumbered(t, i + 1) == Unnumbered(t, i) + GapBefore(t, i)
  {
    assert Absent(t[..0], t[0].seqNo, t[0].seqNo) == {};
    GapStep(t, i, t[0].seqNo, Expected(t, i));
  }

  /** What starts at nothing and grows by every gap is what the loop counts. */
  lemma {:induction false} CountsUp(t: seq<Event>, i: nat, count: int -> int)
    requires i <= |t| && t != [] && count(0) == 0
    requires forall k :: 0 <= k < i ==> count(k + 1) == count(k) + GapBefore(t, k)
    ensures CountedGaps(t, i) == count(i)
  {
    if i == 0 {
    } else {
      CountsUp(t, i - 1, count);
      assert count((i - 1) + 1) == count(i - 1) + GapBefore(t, i - 1);
    }
  }

  function UnnumberedIn(t: seq<Event>): int -> int
    requires t != []
  {
    (k: int) => if 0 <= k <= |t| then Unnumbered(t, k) else 0
  }

  lemma AllSteps(t: seq<Event>)
    requires t != [] && SortedBySeq(t)
    ensures UnnumberedIn(t)(0) == 0 && UnnumberedIn(t)(|t|) == Unnumbered(t, |t|)
    ensures forall k :: 0 <= k < |t| ==> UnnumberedIn(t)(k + 1) == UnnumberedIn(t)(k) + GapBefore(t, k)
  {
    UnnumberedStep(t, 0);
    forall k | 0 <= k < |t| ensures UnnumberedIn(t)(k + 1) == UnnumberedIn(t)(k) + GapBefore(t, k) {
      UnnumberedStep(t, k);
    }
  }

  /** The loop counts the numbers that no event carries. */
  lemma CountedAreAbsent(t: seq<Event>)
    requires t != [] && SortedBySeq(t)
    ensures CountedGaps(t, |t|) == |Absent(t[..|t|], t[0].seqNo, t[|t| - 1].seqNo + 1)|
  {
    AllSteps(t);
    CountsUp(t, |t|, UnnumberedIn(t));
  }

  /** The loop over the sorted events. */
  method GapsInOrder(t: seq<Event>) returns (detected: nat, resolved: nat)
    requires t != []
    ensures detected == resolved == CountedGaps(t, |t|)
  {
    detected, resolved := 0, 0;
    var expected := t[0].seqNo;
    for i := 0 to |t|
      invariant expected == Expected(t, i)
      invariant detected == resolved == CountedGaps(t, i)
    {
      var current := t[i].seqNo;
      if current > expected {
        var gap: nat := current - expected;
        detected := detected + gap;
        resolved := resolved + gap;
      }
      expected := current + 1;
    }
  }

  /** The gaps of a list, by its least and greatest number. */
  function GapCount(events: seq<Event>): nat {
    if events == [] then 0
    else
      var t := StableSort(events);
      SortKeepsLength(events);
      |Absent(events, t[0].seqNo, t[|t| - 1].seqNo)|
  }

  lemma SortKeepsLength(s: seq<Event>)
    ensures |StableSort(s)| == |s|
  {
    StableSortSorts(s);
    assert |multiset(StableSort(s))| == |multiset(s)|;
  }

  lemma SortedEnds(events: seq<Event>, t: seq<Event>)
    requires t == StableSort(events) && t != []
    ensures IsLeast(events, t[0].seqNo) && IsGreatest(events, t[|t| - 1].seqNo)
  {
    StableSortOrders(events);
    SortedMembers(events);
    assert t[0] in events && t[|t| - 1] in events;
    forall e | e in events ensures t[0].seqNo <= e.seqNo <= t[|t| - 1].seqNo {
      assert e in t;
    }
  }

  lemma GapsBetween(events: seq<Event>, t: seq<Event>)
    requires events != [] && t == StableSort(events) && t != []
    ensures |Absent(t[..|t|], t[0].seqNo, t[|t| - 1].seqNo + 1)| == GapCount(events)
    ensures CountsGaps(events, GapCount(events))
  {
    SortedMembers(events);
    SortKeepsLength(events);
    SortedEnds(events, t);
    var lo, hi := t[0].seqNo, t[|t| - 1].seqNo;
    assert t[..|t|] == t;
    assert SeqNumbers(t) == SeqNumbers(events);
    assert t[|t| - 1] in t && hi in SeqNumbers(t);
    assert Absent(t, lo, hi + 1) == Absent(events, lo, hi);
  }

  // ---------------------------------------------------------------------------
  // A recovery pass
  // ---------------------------------------------------------------------------

  /**
   * What delivering an event comes to: a response, after which the recovered-event callback may raise;
   * a result without a response; or an exception.
   */
  datatype Attempted = Delivered(callbackRaises: bool) | Refused | Raised

  datatype Oracle = Oracle(client: (string, string) -> Attempted, stop: int -> bool, gapDetection: bool)

  datatype Totals = Totals(found: int, delivered: int, failed: int, failedTasks: int, gaps: int, resolved: int)

  const ZERO: Totals := Totals(0, 0, 0, 0, 0, 0)

  function Add(a: Totals, b: Totals): Totals {
    Totals(a.found + b.found, a.delivered + b.delivered, a.failed + b.failed,
           a.failedTasks + b.failedTasks, a.gaps + b.gaps, a.resolved + b.resolved)
  }

  /** The looks taken at the shutdown flag, the ids delivered, the failures, and whether a callback raised. */
  datatype Walk = Walk(polls: int, delivered: seq<string>, failed: int, raised: bool)

  function After(w: Walk, id: string, attempted: Attempted): Walk {
    match attempted
    case Delivered(callbackRaises) => Walk(w.polls + 1, w.delivered + [id], w.failed, callbackRaises)
    case Refused => w.(polls := w.polls + 1, failed := w.failed + 1)
    case Raised => w.(polls := w.polls + 1, failed := w.failed + 1)
  }

  /** The loop over a task's pending events. */
  function DeliverEvents(w: Walk, task: string, events: seq<Event>, o: Oracle): Walk
    decreases |events|
  {
    if events == [] || w.raised then w
    else if o.stop(w.polls) then w.(polls := w.polls + 1)
    else DeliverEvents(After(w, events[0].id, o.client(task, events[0].id)), task, events[1..], o)
  }

  /** Each delivered event is acknowledged as soon as it is delivered. */
  function AckAll(box: Box, task: string, ids: seq<string>): Box {
    if ids == [] then box
    else Acknowledge(AckAll(box, task, ids[..|ids| - 1]), task, ids[|ids| - 1]).0
  }

  lemma AckOneMore(box: Box, task: string, ids: seq<string>, id: string)
    ensures AckAll(box, task, ids + [id]) == Acknowledge(AckAll(box, task, ids), task, id).0
  {
    assert (ids + [id])[..|ids|] == ids;
  }

  /** A failure of the whole loop counts every event that was not delivered. */
  function WalkTotals(pending: seq<Event>, w: Walk, gapDetection: bool): Totals {
    var gaps := if gapDetection then GapCount(pending) else 0;
    var missed := if w.raised && |pending| > |w.delivered| then |pending| - |w.delivered| else 0;
    var failed := w.failed + missed;
    Totals(|pending|, |w.delivered|, failed, if failed > 0 then 1 else 0, gaps, gaps)
  }

  /** The state of a pass: outbox, looks at the flag, totals. */
  datatype Pass = Pass(box: Box, polls: int, totals: Totals)

  function WalkTask(pending: seq<Event>, polls: int, task: string, o: Oracle): Walk {
    DeliverEvents(Walk(polls + 1, [], 0, false), task, pending, o)
  }

  function RecoverTask(box: Box, polls: int, task: string, o: Oracle): Pass {
    if o.stop(polls) then Pass(box, polls + 1, ZERO)
    else
      var pending := GetPending(box, task);
      if pending == [] then Pass(box, polls + 1, ZERO)
      else
        var w := WalkTask(pending, polls, task, o);
        Pass(AckAll(box, task, w.delivered), w.polls, WalkTotals(pending, w, o.gapDetection))
  }

  /** Recovering one task, as the batches see it. */
  type Recoverer = (Box, int, string) -> Pass

  function TaskRecoverer(o: Oracle): Recoverer {
    (box: Box, polls: int, task: string) => RecoverTask(box, polls, task, o)
  }

  /** The loops over batches and tasks need to know about a task's recovery only that it is what `recover` says. */
  ghost predicate Describes(recover: Recoverer, o: Oracle) {
    forall box, n, t {:trigger RecoverTask(box, n, t, o)} :: recover(box, n, t) == RecoverTask(box, n, t, o)
  }

  function RecoverBatch(p: Pass, tasks: seq<string>, recover: Recoverer, stop: int -> bool): Pass
    decreases |tasks|
  {
    if tasks == [] then p
    else if stop(p.polls) then p.(polls := p.polls + 1)
    else
      var t := recover(p.box, p.polls + 1, tasks[0]);
      RecoverBatch(Pass(t.box, t.polls, Add(p.totals, t.totals)), tasks[1..], recover, stop)
  }

  function RecoverAll(p: Pass, tasks: seq<string>, batchSize: nat, recover: Recoverer, stop: int -> bool): Pass
    requires batchSize >= 1
    decreases |tasks|
  {
    if tasks == [] then p
    else if stop(p.polls) then p.(polls := p.polls + 1)
    else
      var n := if batchSize < |tasks| then batchSize else |tasks|;
      RecoverAll(RecoverBatch(p.(polls := p.polls + 1), tasks[..n], recover, stop), tasks[n..], batchSize, recover,
                 stop)
  }

  /** `_perform_recovery` over the listed tasks. */
  function PassResult(box: Box, tasks: seq<string>, batchSize: nat, o: Oracle): Pass
    requires batchSize >= 1
  {
    RecoverAll(Pass(box, 0, ZERO), tasks, batchSize, TaskRecoverer(o), o.stop)
  }

  // ---------------------------------------------------------------------------
  // Whatever happens, only delivered events leave the outbox
  // ---------------------------------------------------------------------------

  /** Tasks are stored stripped, events are schema-valid. */
  ghost predicate Stocked(b: Box) {
    && (forall t :: t in b.pending ==> t != "" && Strip(t) == t)
    && (forall t, e :: t in b.pending && e in b.pending[t] ==> SchemaValid(e))
  }

  /** Stocked is what the outbox operations keep. */
  lemma StoreKeepsStocked(b: Box, task: string, e: Event)
    requires Stocked(b)
    ensures Stocked(StoreOutcome(b, task, e).0)
  {
    StripTrims(task);
  }

  type Pairs = set<(string, string)>

  function Kept(gone: Pairs, task: string): Event -> bool {
    (e: Event) => (task, e.id) !in gone
  }

  /** `after` is `before` without the events of the pairs in `gone`; what is left keeps its order. */
  ghost predicate Drained(before: Box, after: Box, gone: Pairs) {
    && after.stored == before.stored
    && (forall t :: t in after.pending ==> t in before.pending)
    && (forall t :: PendingOf(after, t) == Filter(PendingOf(before, t), Kept(gone, t)))
  }

  lemma DrainedStart(b: Box)
    ensures Drained(b, b, {})
  {
    forall t ensures PendingOf(b, t) == Filter(PendingOf(b, t), Kept({}, t)) {
      FilterAll(PendingOf(b, t), Kept({}, t));
    }
  }

  lemma DrainedStep(before: Box, mid: Box, gone: Pairs, task: string, id: string)
    requires Drained(before, mid, gone)
    ensures Drained(before, AckIn(mid, task, id).0, gone + {(task, id)})
  {
    var after, gone' := AckIn(mid, task, id).0, gone + {(task, id)};
    forall t ensures PendingOf(after, t) == Filter(PendingOf(before, t), Kept(gone', t)) {
      if t == task {
        FilterTwice(PendingOf(before, t), Kept(gone, t), HasOtherId(id), Kept(gone', t));
      } else {
        FilterAgree(PendingOf(before, t), Kept(gone, t), Kept(gone', t));
      }
    }
  }

  /** Nothing interrupts: the flag is never up and no callback raises. */
  ghost predicate Calm(o: Oracle) {
    (forall n :: !o.stop(n)) && forall t, id :: o.client(t, id) != Delivered(true)
  }

  /** The client delivered one of the events, and its id, stripped, is `id`. */
  ghost predicate AckedBy(events: seq<Event>, task: string, id: string, o: Oracle) {
    exists e :: e in events && Strip(e.id) == id && o.client(task, e.id).Delivered?
  }

  /** An acknowledgement follows the delivery of a pending event. */
  ghost predicate AllDelivered(before: Box, gone: Pairs, o: Oracle) {
    forall p :: p in gone ==> AckedBy(PendingOf(before, p.0), p.0, p.1, o)
  }

  /** Every listed event that the client delivers was acknowledged. */
  ghost predicate NoneLeft(gone: Pairs, task: string, events: seq<Event>, o: Oracle) {
    forall e :: e in events && o.client(task, e.id).Delivered? ==> (task, Strip(e.id)) in gone
  }

  /** The delivered ids are ids of the events that the client delivered; if nothing interrupts, of all those. */
  lemma {:induction false} DeliveredIds(w: Walk, task: string, events: seq<Event>, o: Oracle)
    ensures var r := DeliverEvents(w, task, events, o);
            && w.delivered <= r.delivered
            && (forall id :: id in r.delivered && id !in w.delivered ==>
                  o.client(task, id).Delivered? && exists e :: e in events && e.id == id)
            && (Calm(o) && !w.raised ==>
                  !r.raised && forall e :: e in events && o.client(task, e.id).Delivered? ==> e.id in r.delivered)
    decreases |events|
  {
    if events != [] && !w.raised && !o.stop(w.polls) {
      var e, rest := events[0], events[1..];
      assert events == [e] + rest;
      var w' := After(w, e.id, o.client(task, e.id));
      DeliveredIds(w', task, rest, o);
      if o.client(task, e.id).Delivered? {
        assert w'.delivered[|w.delivered|] == e.id && e.id in w'.delivered;
      }
    }
  }

  /** What acknowledging the ids looks for: the stripped ids. */
  function PairsOf(task: string, ids: seq<string>): Pairs {
    set id | id in ids :: (task, Strip(id))
  }

  lemma PairsExtend(gone: Pairs, task: string, ids: seq<string>)
    requires ids != []
    ensures gone + PairsOf(task, ids) == gone + PairsOf(task, ids[..|ids| - 1]) + {(task, Strip(ids[|ids| - 1]))}
  {
    assert forall id :: id in ids <==> id in ids[..|ids| - 1] || id == ids[|ids| - 1];
  }

  lemma AckLast(box: Box, task: string, ids: seq<string>)
    requires ids != [] && Strip(task) == task != "" && Strip(ids[|ids| - 1]) != ""
    ensures AckAll(box, task, ids) == AckIn(AckAll(box, task, ids[..|ids| - 1]), task, Strip(ids[|ids| - 1])).0
  {
  }

  lemma {:induction false} AckAllDrains(before: Box, mid: Box, gone: Pairs, task: string, ids: seq<string>)
    requires Drained(before, mid, gone)
    requires Strip(task) == task != "" && forall id :: id in ids ==> Strip(id) != ""
    ensures Drained(before, AckAll(mid, task, ids), gone + PairsOf(task, ids))
  {
    if ids == [] {
      assert gone + PairsOf(task, ids) == gone;
    } else {
      var front, last := ids[..|ids| - 1], ids[|ids| - 1];
      assert last in ids && forall id :: id in front ==> id in ids;
      AckAllDrains(before, mid, gone, task, front);
      AckLast(mid, task, ids);
      DrainedStep(before, AckAll(mid, task, front), gone + PairsOf(task, front), task, Strip(last));
      PairsExtend(gone, task, ids);
    }
  }

  lemma DrainedMembers(before: Box, after: Box, gone: Pairs, t: string)
    requires Stocked(before) && Drained(before, after, gone)
    ensures forall e :: e in PendingOf(after, t) <==> e in PendingOf(before, t) && (t, e.id) !in gone
    ensures forall e :: e in PendingOf(after, t) ==> SchemaValid(e)
  {
  }

  lemma TaskDrains(before: Box, box: Box, polls: int, gone: Pairs, task: string, o: Oracle) returns (gone': Pairs)
    requires Stocked(before) && Drained(before, box, gone) && AllDelivered(before, gone, o)
    requires Strip(task) == task != ""
    ensures Drained(before, RecoverTask(box, polls, task, o).box, gone') && AllDelivered(before, gone', o)
    ensures gone <= gone' && forall p :: p in gone' && p !in gone ==> p.0 == task
    ensures Calm(o) ==> NoneLeft(gone', task, PendingOf(before, task), o)
  {
    gone' := gone;
    var pending := GetPending(box, task);
    SortedMembers(PendingOf(box, task));
    DrainedMembers(before, box, gone, task);
    if !o.stop(polls) && pending != [] {
      var w := WalkTask(pending, polls, task, o);
      DeliveredIds(Walk(polls + 1, [], 0, false), task, pending, o);
      forall id | id in w.delivered
        ensures Strip(id) != "" && AckedBy(PendingOf(before, task), task, Strip(id), o)
      {
        var e :| e in pending && e.id == id;
        SchemaIdStrips(id);
      }
      AckAllDrains(before, box, gone, task, w.delivered);
      gone' := gone + PairsOf(task, w.delivered);
    }
    if Calm(o) {
      forall e | e in PendingOf(before, task) && o.client(task, e.id).Delivered?
        ensures (task, Strip(e.id)) in gone'
      {
        if (task, e.id) in gone {
          StrippedIdsGo(before, gone, task, e.id, o);
        } else {
          assert e in PendingOf(box, task) && e in pending;
        }
      }
    }
  }

  lemma StrippedIdsGo(before: Box, gone: Pairs, task: string, id: string, o: Oracle)
    requires AllDelivered(before, gone, o) && (task, id) in gone
    ensures Strip(id) == id
  {
    var p := (task, id);
    assert AckedBy(PendingOf(before, p.0), p.0, p.1, o);
    var e :| e in PendingOf(before, task) && Strip(e.id) == id;
    StripTrims(e.id);
  }

  lemma {:induction false} BatchDrains(before: Box, p: Pass, gone: Pairs, tasks: seq<string>, recover: Recoverer,
                                       o: Oracle) returns (gone': Pairs)
    requires Describes(recover, o) && Stocked(before) && Drained(before, p.box, gone) && AllDelivered(before, gone, o)
    requires forall t :: t in tasks ==> Strip(t) == t != ""
    ensures Drained(before, RecoverBatch(p, tasks, recover, o.stop).box, gone') && AllDelivered(before, gone', o)
    ensures gone <= gone' && forall q :: q in gone' && q !in gone ==> q.0 in tasks
    ensures Calm(o) ==> forall t :: t in tasks ==> NoneLeft(gone', t, PendingOf(before, t), o)
    decreases |tasks|
  {
    gone' := gone;
    if tasks != [] && !o.stop(p.polls) {
      HeadOrTail(tasks);
      var t := RecoverTask(p.box, p.polls + 1, tasks[0], o);
      BatchUnfolds(p.box, p.polls + 1, p.totals, tasks, recover, o.stop, t);
      var mid := TaskDrains(before, p.box, p.polls + 1, gone, tasks[0], o);
      gone' := BatchDrains(before, Pass(t.box, t.polls, Add(p.totals, t.totals)), mid, tasks[1..], recover, o);
    }
  }

  /**
   * A pass, interrupted or not, takes events out of the outbox only if the client delivered them; the
   * others stay pending, in their order. Uninterrupted, it takes out all that the client delivers.
   */
  lemma {:induction false} PassDrains(before: Box, p: Pass, gone: Pairs, tasks: seq<string>, batchSize: nat,
                                      recover: Recoverer, o: Oracle) returns (gone': Pairs)
    requires batchSize >= 1 && Describes(recover, o)
    requires Stocked(before) && Drained(before, p.box, gone) && AllDelivered(before, gone, o)
    requires forall t :: t in tasks ==> Strip(t) == t != ""
    ensures Drained(before, RecoverAll(p, tasks, batchSize, recover, o.stop).box, gone')
    ensures AllDelivered(before, gone', o)
    ensures gone <= gone' && forall q :: q in gone' && q !in gone ==> q.0 in tasks
    ensures Calm(o) ==> forall t :: t in tasks ==> NoneLeft(gone', t, PendingOf(before, t), o)
    decreases |tasks|
  {
    gone' := gone;
    if tasks != [] && !o.stop(p.polls) {
      var n := if batchSize < |tasks| then batchSize else |tasks|;
      var batch, rest := tasks[..n], tasks[n..];
      SplitMembers(tasks, n);
      var p' := p.(polls := p.polls + 1);
      var mid := BatchDrains(before, p', gone, batch, recover, o);
      gone' := PassDrains(before, RecoverBatch(p', batch, recover, o.stop), mid, rest, batchSize, recover, o);
    }
  }

  function Undelivered(task: string, o: Oracle): Event -> bool {
    (e: Event) => !o.client(task, e.id).Delivered?
  }

  ghost function NotAcked(events: seq<Event>, task: string, o: Oracle): Event -> bool {
    (e: Event) => !AckedBy(events, task, e.id, o)
  }

  /**
   * An uninterrupted pass leaves pending, in order, exactly the events whose id is not the stripped id of
   * a delivered one.
   */
  lemma PassLeavesTheUnacknowledged(box: Box, tasks: seq<string>, batchSize: nat, o: Oracle, t: string)
    requires batchSize >= 1 && Stocked(box) && Calm(o)
    requires forall t :: t in tasks <==> t in box.pending
    ensures PendingOf(PassResult(box, tasks, batchSize, o).box, t)
         == Filter(PendingOf(box, t), NotAcked(PendingOf(box, t), t, o))
  {
    DrainedStart(box);
    var gone := PassDrains(box, Pass(box, 0, ZERO), {}, tasks, batchSize, TaskRecoverer(o), o);
    var events := PendingOf(box, t);
    forall e | e in events ensures Kept(gone, t)(e) == NotAcked(events, t, o)(e) {
      var p := (t, e.id);
      if p in gone {
        assert AckedBy(PendingOf(box, p.0), p.0, p.1, o);
      }
      if AckedBy(events, t, e.id, o) {
        var x :| x in events && Strip(x.id) == e.id && o.client(t, x.id).Delivered?;
        assert NoneLeft(gone, t, events, o);
      }
    }
    FilterAgree(events, Kept(gone, t), NotAcked(events, t, o));
  }

  /** Every pending id is one that stripping leaves alone, as the generated ids are. */
  ghost predicate TrimmedIds(events: seq<Event>) {
    forall e :: e in events ==> Strip(e.id) == e.id
  }

  /** With such ids an uninterrupted pass leaves pending exactly the events whose delivery failed, in order. */
  lemma PassLeavesTheUndelivered(box: Box, tasks: seq<string>, batchSize: nat, o: Oracle, t: string)
    requires batchSize >= 1 && Stocked(box) && Calm(o) && TrimmedIds(PendingOf(box, t))
    requires forall t :: t in tasks <==> t in box.pending
    ensures PendingOf(PassResult(box, tasks, batchSize, o).box, t)
         == Filter(PendingOf(box, t), Undelivered(t, o))
  {
    PassLeavesTheUnacknowledged(box, tasks, batchSize, o, t);
    var events := PendingOf(box, t);
    forall e | e in events ensures NotAcked(events, t, o)(e) == Undelivered(t, o)(e) {
      assert Strip(e.id) == e.id;
    }
    FilterAgree(events, NotAcked(events, t, o), Undelivered(t, o));
  }

  // ---------------------------------------------------------------------------
  // The totals of an uninterrupted pass
  // ---------------------------------------------------------------------------

  /** The position of the first event whose callback raises, or the end. */
  function FirstRaise(events: seq<Event>, task: string, o: Oracle): (i: nat)
    ensures i <= |events|
    ensures i < |events| ==> o.client(task, events[i].id) == Delivered(true)
    ensures forall j :: 0 <= j < i ==> o.client(task, events[j].id) != Delivered(true)
  {
    if events == [] || o.client(task, events[0].id) == Delivered(true) then 0
    else 1 + FirstRaise(events[1..], task, o)
  }

  lemma SliceTail<T>(s: seq<T>, i: nat)
    requires 1 <= i <= |s|
    ensures s[..i][1..] == s[1..][..i - 1] && s[..i][0] == s[0]
  {
  }

  /** How many events the loop looks at the flag before, if it is never up: up to the first raise. */
  function Looks(events: seq<Event>, task: string, o: Oracle): nat {
    var i := FirstRaise(events, task, o);
    if i < |events| then i + 1 else i
  }

  /** The flag is up at one of `count` looks, the first of which is number `from`. */
  ghost predicate UpWithin(from: int, count: nat, o: Oracle) {
    exists n :: from <= n < from + count && o.stop(n)
  }

  lemma {:induction false} WalkCounts(w: Walk, task: string, events: seq<Event>, o: Oracle)
    requires !w.raised && !UpWithin(w.polls, Looks(events, task, o), o)
    ensures var r, i := DeliverEvents(w, task, events, o), FirstRaise(events, task, o);
            && (r.raised <==> i < |events|)
            && r.failed == w.failed + |Filter(events[..i], Undelivered(task, o))|
            && |r.delivered| <= |w.delivered| + |events|
            && (!r.raised ==> |r.delivered| + r.failed == |w.delivered| + w.failed + |events|)
    decreases |events|
  {
    var i := FirstRaise(events, task, o);
    if events == [] {
    } else {
      var e, rest := events[0], events[1..];
      if o.client(task, e.id) == Delivered(true) {
        assert events[..0] == [];
      } else {
        FilterFirst(events[..i], Undelivered(task, o));
        SliceTail(events, i);
        WalkCounts(After(w, e.id, o.client(task, e.id)), task, rest, o);
      }
    }
  }

  function IsDelivered(task: string, o: Oracle): Event -> bool {
    (e: Event) => o.client(task, e.id).Delivered?
  }

  /** The totals of one task, by counting its pending events. */
  function TaskTotals(pending: seq<Event>, task: string, o: Oracle): Totals {
    var failed := |Filter(pending, Undelivered(task, o))|;
    var gaps := if o.gapDetection then GapCount(pending) else 0;
    Totals(|pending|, |Filter(pending, IsDelivered(task, o))|, failed, if failed > 0 then 1 else 0, gaps, gaps)
  }

  function SumOf<T>(tasks: seq<T>, of: T -> Totals): Totals {
    if tasks == [] then ZERO else Add(of(tasks[0]), SumOf(tasks[1..], of))
  }

  lemma CalmDelivery(w: Walk, task: string, events: seq<Event>, o: Oracle)
    requires Calm(o) && !w.raised
    ensures var r := DeliverEvents(w, task, events, o);
            && !r.raised
            && |r.delivered| == |w.delivered| + |Filter(events, IsDelivered(task, o))|
            && r.failed == w.failed + |Filter(events, Undelivered(task, o))|
  {
    WalkCounts(w, task, events, o);
    assert FirstRaise(events, task, o) == |events|;
    assert events[..|events|] == events;
    FilterSplit(events, IsDelivered(task, o), Undelivered(task, o));
  }

  lemma CalmWalk(pending: seq<Event>, polls: int, task: string, o: Oracle)
    requires Calm(o)
    ensures WalkTotals(pending, WalkTask(pending, polls, task, o), o.gapDetection) == TaskTotals(pending, task, o)
    ensures pending == [] ==> TaskTotals(pending, task, o) == ZERO
  {
    CalmDelivery(Walk(polls + 1, [], 0, false), task, pending, o);
  }

  lemma {:induction false} AckAllFrame(box: Box, task: string, ids: seq<string>, t: string)
    requires Strip(task) == task != t
    ensures PendingOf(AckAll(box, task, ids), t) == PendingOf(box, t)
  {
    if ids == [] {
    } else {
      AckAllFrame(box, task, ids[..|ids| - 1], t);
    }
  }

  lemma {:induction false} SumConcat<T>(a: seq<T>, b: seq<T>, of: T -> Totals)
    ensures SumOf(a + b, of) == Add(SumOf(a, of), SumOf(b, of))
  {
    if a == [] {
      assert a + b == b;
    } else {
      assert (a + b)[1..] == a[1..] + b;
      SumConcat(a[1..], b, of);
    }
  }

  lemma AddAssociates(a: Totals, b: Totals, c: Totals)
    ensures Add(Add(a, b), c) == Add(a, Add(b, c))
  {
  }

  /** Recovering a task leaves the pending events of the others alone. */
  ghost predicate Framed(recover: Recoverer, tasks: seq<string>) {
    forall box, n, t, u {:trigger PendingOf(recover(box, n, t).box, u)} ::
      t in tasks && u != t ==> PendingOf(recover(box, n, t).box, u) == PendingOf(box, u)
  }

  /** The totals of recovering a task depend on its pending events alone. */
  ghost predicate Measured(recover: Recoverer, tasks: seq<string>, of: (seq<Event>, string) -> Totals) {
    forall box, n, t {:trigger recover(box, n, t)} ::
      t in tasks ==> recover(box, n, t).totals == of(PendingOf(box, t), t)
  }

  function TotalsIn(box: Box, of: (seq<Event>, string) -> Totals): string -> Totals {
    (t: string) => of(PendingOf(box, t), t)
  }

  lemma {:induction false} BatchFrame(p: Pass, tasks: seq<string>, recover: Recoverer, stop: int -> bool, t: string)
    requires Framed(recover, tasks) && t !in tasks
    ensures PendingOf(RecoverBatch(p, tasks, recover, stop).box, t) == PendingOf(p.box, t)
    decreases |tasks|
  {
    if tasks != [] && !stop(p.polls) {
      assert tasks[0] in tasks;
      var r := recover(p.box, p.polls + 1, tasks[0]);
      BatchFrame(Pass(r.box, r.polls, Add(p.totals, r.totals)), tasks[1..], recover, stop, t);
    }
  }

  lemma {:induction false} SumAgrees(tasks: seq<string>, a: string -> Totals, b: string -> Totals)
    requires forall i :: 0 <= i < |tasks| ==> a(tasks[i]) == b(tasks[i])
    ensures SumOf(tasks, a) == SumOf(tasks, b)
  {
    if tasks == [] {
    } else {
      var rest := tasks[1..];
      forall i | 0 <= i < |rest| ensures a(rest[i]) == b(rest[i]) {
        assert rest[i] == tasks[i + 1];
      }
      SumAgrees(rest, a, b);
      assert a(tasks[0]) == b(tasks[0]);
    }
  }

  lemma {:induction false} BatchTotals(p: Pass, tasks: seq<string>, recover: Recoverer, stop: int -> bool,
                                       of: (seq<Event>, string) -> Totals)
    requires forall n :: !stop(n)
    requires NoDuplicates(tasks) && Framed(recover, tasks) && Measured(recover, tasks, of)
    ensures RecoverBatch(p, tasks, recover, stop).totals == Add(p.totals, SumOf(tasks, TotalsIn(p.box, of)))
    decreases |tasks|
  {
    if tasks == [] {
    } else {
      var head, rest := tasks[0], tasks[1..];
      assert head in tasks && forall t :: t in rest ==> t in tasks;
      var r := recover(p.box, p.polls + 1, head);
      var p' := Pass(r.box, r.polls, Add(p.totals, r.totals));
      BatchTotals(p', rest, recover, stop, of);
      forall i | 0 <= i < |rest| ensures TotalsIn(r.box, of)(rest[i]) == TotalsIn(p.box, of)(rest[i]) {
        assert rest[i] == tasks[i + 1];
        assert PendingOf(r.box, rest[i]) == PendingOf(p.box, rest[i]);
      }
      SumAgrees(rest, TotalsIn(r.box, of), TotalsIn(p.box, of));
      AddAssociates(p.totals, r.totals, SumOf(rest, TotalsIn(p.box, of)));
    }
  }

  lemma SplitMembers(tasks: seq<string>, n: nat)
    requires n <= |tasks|
    ensures forall t :: t in tasks <==> t in tasks[..n] || t in tasks[n..]
  {
    assert tasks == tasks[..n] + tasks[n..];
  }

  lemma SplitAt(tasks: seq<string>, n: nat)
    requires n <= |tasks| && NoDuplicates(tasks)
    ensures NoDuplicates(tasks[..n]) && NoDuplicates(tasks[n..]) && tasks == tasks[..n] + tasks[n..]
    ensures forall t :: t in tasks <==> t in tasks[..n] || t in tasks[n..]
    ensures forall t :: t in tasks[n..] ==> t !in tasks[..n]
  {
    forall t | t in tasks[n..] ensures t !in tasks[..n] {
      var j :| n <= j < |tasks| && tasks[j] == t;
    }
    SplitMembers(tasks, n);
    assert tasks == tasks[..n] + tasks[n..];
  }

  lemma {:induction false} AllTotals(p: Pass, tasks: seq<string>, batchSize: nat, recover: Recoverer, stop: int -> bool,
                                     of: (seq<Event>, string) -> Totals)
    requires batchSize >= 1 && forall n :: !stop(n)
    requires NoDuplicates(tasks) && Framed(recover, tasks) && Measured(recover, tasks, of)
    ensures RecoverAll(p, tasks, batchSize, recover, stop).totals == Add(p.totals, SumOf(tasks, TotalsIn(p.box, of)))
    decreases |tasks|
  {
    if tasks == [] {
    } else {
      var n := if batchSize < |tasks| then batchSize else |tasks|;
      var batch, rest, p' := tasks[..n], tasks[n..], p.(polls := p.polls + 1);
      var p'' := RecoverBatch(p', batch, recover, stop);
      SplitAt(tasks, n);
      BatchTotals(p', batch, recover, stop, of);
      AllTotals(p'', rest, batchSize, recover, stop, of);
      forall i | 0 <= i < |rest| ensures TotalsIn(p''.box, of)(rest[i]) == TotalsIn(p.box, of)(rest[i]) {
        BatchFrame(p', batch, recover, stop, rest[i]);
      }
      SumAgrees(rest, TotalsIn(p''.box, of), TotalsIn(p.box, of));
      ConcatSums(tasks, n, TotalsIn(p.box, of));
      AddAssociates(p.totals, SumOf(batch, TotalsIn(p.box, of)), SumOf(rest, TotalsIn(p.box, of)));
    }
  }

  lemma ConcatSums<T>(tasks: seq<T>, n: nat, of: T -> Totals)
    requires n <= |tasks|
    ensures SumOf(tasks, of) == Add(SumOf(tasks[..n], of), SumOf(tasks[n..], of))
  {
    SumConcat(tasks[..n], tasks[n..], of);
    assert tasks == tasks[..n] + tasks[n..];
  }

  ghost predicate Balanced(t: Totals) {
    t.found == t.delivered + t.failed && t.gaps == t.resolved
  }

  lemma TaskTotalsBalance(pending: seq<Event>, task: string, o: Oracle)
    ensures Balanced(TaskTotals(pending, task, o))
  {
    FilterSplit(pending, IsDelivered(task, o), Undelivered(task, o));
  }

  lemma {:induction false} SumBalances<T>(tasks: seq<T>, of: T -> Totals)
    requires forall i :: 0 <= i < |tasks| ==> Balanced(of(tasks[i]))
    ensures Balanced(SumOf(tasks, of))
  {
    if tasks == [] {
    } else {
      var rest := tasks[1..];
      forall i | 0 <= i < |rest| ensures Balanced(of(rest[i])) {
        assert rest[i] == tasks[i + 1];
      }
      SumBalances(rest, of);
      assert Balanced(of(tasks[0]));
    }
  }

  /** The totals of a task, from its pending events in store order. */
  function CalmTotals(o: Oracle): (seq<Event>, string) -> Totals {
    (pending: seq<Event>, task: string) => TaskTotals(StableSort(pending), task, o)
  }

  lemma CalmTask(box: Box, polls: int, task: string, o: Oracle)
    requires Calm(o) && Strip(task) == task != ""
    ensures RecoverTask(box, polls, task, o).totals == TaskTotals(GetPending(box, task), task, o)
    ensures GetPending(box, task) == StableSort(PendingOf(box, task))
  {
    CalmWalk(GetPending(box, task), polls, task, o);
  }

  lemma TaskFrame(box: Box, polls: int, task: string, o: Oracle, t: string)
    requires Strip(task) == task != t
    ensures PendingOf(RecoverTask(box, polls, task, o).box, t) == PendingOf(box, t)
  {
    AckAllFrame(box, task, WalkTask(GetPending(box, task), polls, task, o).delivered, t);
  }

  lemma RecovererIsFramed(tasks: seq<string>, o: Oracle)
    requires forall t :: t in tasks ==> Strip(t) == t
    ensures Framed(TaskRecoverer(o), tasks)
  {
    forall box, n, t, u | t in tasks && u != t
      ensures PendingOf(TaskRecoverer(o)(box, n, t).box, u) == PendingOf(box, u)
    {
      TaskFrame(box, n, t, o, u);
    }
  }

  lemma RecovererIsMeasured(tasks: seq<string>, o: Oracle)
    requires Calm(o) && forall t :: t in tasks ==> Strip(t) == t != ""
    ensures Measured(TaskRecoverer(o), tasks, CalmTotals(o))
  {
    forall box, n, t | t in tasks
      ensures TaskRecoverer(o)(box, n, t).totals == CalmTotals(o)(PendingOf(box, t), t)
    {
      CalmTask(box, n, t, o);
    }
  }

  ghost predicate AlwaysBalanced(of: (seq<Event>, string) -> Totals) {
    forall s, t :: Balanced(of(s, t))
  }

  lemma CalmTotalsBalance(o: Oracle)
    ensures AlwaysBalanced(CalmTotals(o))
  {
    forall s, t ensures Balanced(CalmTotals(o)(s, t)) {
      TaskTotalsBalance(StableSort(s), t, o);
    }
  }

  lemma TotalsBalance(box: Box, tasks: seq<string>, batchSize: nat, recover: Recoverer, stop: int -> bool,
                      of: (seq<Event>, string) -> Totals)
    requires batchSize >= 1 && (forall n :: !stop(n)) && NoDuplicates(tasks)
    requires Framed(recover, tasks) && Measured(recover, tasks, of) && AlwaysBalanced(of)
    ensures var totals := RecoverAll(Pass(box, 0, ZERO), tasks, batchSize, recover, stop).totals;
            totals == SumOf(tasks, TotalsIn(box, of)) && Balanced(totals)
  {
    AllTotals(Pass(box, 0, ZERO), tasks, batchSize, recover, stop, of);
    forall i | 0 <= i < |tasks| ensures Balanced(TotalsIn(box, of)(tasks[i])) {
      assert Balanced(of(PendingOf(box, tasks[i]), tasks[i]));
    }
    SumBalances(tasks, TotalsIn(box, of));
  }

  /**
   * Uninterrupted, the totals are the sum over the tasks, whatever the batch size: found is delivered
   * plus failed, and every gap detected is resolved.
   */
  lemma PassBalances(box: Box, tasks: seq<string>, batchSize: nat, o: Oracle)
    requires batchSize >= 1 && Calm(o) && NoDuplicates(tasks) && forall t :: t in tasks ==> Strip(t) == t != ""
    ensures var totals := PassResult(box, tasks, batchSize, o).totals;
            totals == SumOf(tasks, TotalsIn(box, CalmTotals(o))) && Balanced(totals)
  {
    RecovererIsFramed(tasks, o);
    RecovererIsMeasured(tasks, o);
    CalmTotalsBalance(o);
    TotalsBalance(box, tasks, batchSize, TaskRecoverer(o), o.stop, CalmTotals(o));
  }

  lemma {:induction false} NoFailureInSum<T>(tasks: seq<T>, of: T -> Totals, k: nat)
    requires k < |tasks| && SumOf(tasks, of).failed == 0
    requires forall i :: 0 <= i < |tasks| ==> of(tasks[i]).failed >= 0
    ensures of(tasks[k]).failed == 0
  {
    var rest := tasks[1..];
    forall i | 0 <= i < |rest| ensures of(rest[i]).failed >= 0 {
      assert rest[i] == tasks[i + 1];
    }
    SumIsNotNegative(rest, of);
    assert of(tasks[0]).failed >= 0;
    if k == 0 {
    } else {
      NoFailureInSum(rest, of, k - 1);
      assert rest[k - 1] == tasks[k];
    }
  }

  lemma {:induction false} SumIsNotNegative<T>(tasks: seq<T>, of: T -> Totals)
    requires forall i :: 0 <= i < |tasks| ==> of(tasks[i]).failed >= 0
    ensures SumOf(tasks, of).failed >= 0
  {
    if tasks == [] {
    } else {
      var rest := tasks[1..];
      forall i | 0 <= i < |rest| ensures of(rest[i]).failed >= 0 {
        assert rest[i] == tasks[i + 1];
      }
      SumIsNotNegative(rest, of);
      assert of(tasks[0]).failed >= 0;
    }
  }

  lemma NoFailureInTask(pending: seq<Event>, task: string, o: Oracle)
    requires TaskTotals(pending, task, o).failed == 0
    ensures forall e :: e in pending ==> o.client(task, e.id).Delivered?
  {
    forall e | e in pending ensures o.client(task, e.id).Delivered? {
      assert e !in Filter(pending, Undelivered(task, o));
    }
  }

  lemma FailedTotal(box: Box, o: Oracle, t: string)
    ensures TotalsIn(box, CalmTotals(o))(t).failed >= 0
    ensures TotalsIn(box, CalmTotals(o))(t).failed == 0 ==>
              forall e :: e in PendingOf(box, t) ==> o.client(t, e.id).Delivered?
  {
    var pending := StableSort(PendingOf(box, t));
    SortedMembers(PendingOf(box, t));
    if TaskTotals(pending, t, o).failed == 0 {
      NoFailureInTask(pending, t, o);
    }
  }

  lemma NoFailureInPass(box: Box, tasks: seq<string>, batchSize: nat, o: Oracle, t: string)
    requires batchSize >= 1 && Stocked(box) && Calm(o)
    requires NoDuplicates(tasks) && (forall t :: t in tasks <==> t in box.pending) && t in tasks
    requires PassResult(box, tasks, batchSize, o).totals.failed == 0
    ensures forall e :: e in PendingOf(box, t) ==> o.client(t, e.id).Delivered?
  {
    var of := TotalsIn(box, CalmTotals(o));
    PassBalances(box, tasks, batchSize, o);
    forall i | 0 <= i < |tasks| ensures of(tasks[i]).failed >= 0 {
      FailedTotal(box, o, tasks[i]);
    }
    var k :| 0 <= k < |tasks| && tasks[k] == t;
    NoFailureInSum(tasks, of, k);
    FailedTotal(box, o, t);
  }

  function Untrimmed(): Event -> bool {
    (e: Event) => Strip(e.id) != e.id
  }

  /**
   * After an uninterrupted pass without a failed delivery exactly the events are pending whose ids
   * stripping changes.
   */
  lemma FailureFreePassLeavesUntrimmed(box: Box, tasks: seq<string>, batchSize: nat, o: Oracle, t: string)
    requires batchSize >= 1 && Stocked(box) && Calm(o)
    requires NoDuplicates(tasks) && forall t :: t in tasks <==> t in box.pending
    requires PassResult(box, tasks, batchSize, o).totals.failed == 0
    ensures PendingOf(PassResult(box, tasks, batchSize, o).box, t) == Filter(PendingOf(box, t), Untrimmed())
  {
    PassLeavesTheUnacknowledged(box, tasks, batchSize, o, t);
    if t in tasks {
      NoFailureInPass(box, tasks, batchSize, o, t);
    }
    var events := PendingOf(box, t);
    forall e | e in events ensures NotAcked(events, t, o)(e) == Untrimmed()(e) {
      if AckedBy(events, t, e.id, o) {
        var x :| x in events && Strip(x.id) == e.id;
        StripTrims(x.id);
      }
    }
    FilterAgree(events, NotAcked(events, t, o), Untrimmed());
  }

  /** Such a pass leaves nothing pending for a task if and only if stripping leaves its ids alone. */
  lemma FailureFreePassEmptiesIff(box: Box, tasks: seq<string>, batchSize: nat, o: Oracle, t: string)
    requires batchSize >= 1 && Stocked(box) && Calm(o)
    requires NoDuplicates(tasks) && forall t :: t in tasks <==> t in box.pending
    requires PassResult(box, tasks, batchSize, o).totals.failed == 0
    ensures PendingOf(PassResult(box, tasks, batchSize, o).box, t) == [] <==> TrimmedIds(PendingOf(box, t))
  {
    FailureFreePassLeavesUntrimmed(box, tasks, batchSize, o, t);
    if TrimmedIds(PendingOf(box, t)) {
      FilterNone(PendingOf(box, t), Untrimmed());
    } else {
      var e :| e in PendingOf(box, t) && Strip(e.id) != e.id;
      assert e in Filter(PendingOf(box, t), Untrimmed());
    }
  }

  // ---------------------------------------------------------------------------
  // A second pass
  // ---------------------------------------------------------------------------

  ghost predicate NothingPending(box: Box) {
    forall t :: PendingOf(box, t) == []
  }

  /** Recovering a task with nothing pending changes and counts nothing. */
  ghost predicate Idles(recover: Recoverer, box: Box) {
    forall n, t {:trigger recover(box, n, t)} :: recover(box, n, t).box == box && recover(box, n, t).totals == ZERO
  }

  lemma EmptyBoxIdles(box: Box, o: Oracle)
    requires NothingPending(box)
    ensures Idles(TaskRecoverer(o), box)
  {
    forall n, t
      ensures TaskRecoverer(o)(box, n, t).box == box && TaskRecoverer(o)(box, n, t).totals == ZERO
    {
      assert PendingOf(box, Strip(t)) == [];
      assert GetPending(box, t) == [];
    }
  }

  lemma {:induction false} BatchIdles(p: Pass, tasks: seq<string>, recover: Recoverer, stop: int -> bool)
    requires Idles(recover, p.box)
    ensures var r := RecoverBatch(p, tasks, recover, stop); r.box == p.box && r.totals == p.totals
    decreases |tasks|
  {
    if tasks != [] && !stop(p.polls) {
      var t := recover(p.box, p.polls + 1, tasks[0]);
      BatchIdles(Pass(t.box, t.polls, Add(p.totals, t.totals)), tasks[1..], recover, stop);
    }
  }

  lemma {:induction false} AllIdle(p: Pass, tasks: seq<string>, size: nat, recover: Recoverer, stop: int -> bool)
    requires size >= 1 && Idles(recover, p.box)
    ensures var r := RecoverAll(p, tasks, size, recover, stop); r.box == p.box && r.totals == p.totals
    decreases |tasks|
  {
    if tasks != [] && !stop(p.polls) {
      var n := if size < |tasks| then size else |tasks|;
      var p' := p.(polls := p.polls + 1);
      BatchIdles(p', tasks[..n], recover, stop);
      AllIdle(RecoverBatch(p', tasks[..n], recover, stop), tasks[n..], size, recover, stop);
    }
  }

  /**
   * After an uninterrupted pass without a failed delivery, over ids that stripping leaves alone, another
   * pass finds nothing, whatever its tasks, batches, client and shutdowns.
   */
  lemma SecondPassFindsNothing(box: Box, tasks: seq<string>, size: nat, o: Oracle, again: seq<string>, size': nat,
                               o': Oracle)
    requires size >= 1 && Stocked(box) && Calm(o) && NoDuplicates(tasks) && forall t :: t in tasks <==> t in box.pending
    requires forall t :: TrimmedIds(PendingOf(box, t))
    requires PassResult(box, tasks, size, o).totals.failed == 0 && size' >= 1
    ensures PassResult(PassResult(box, tasks, size, o).box, again, size', o').totals == ZERO
  {
    var after := PassResult(box, tasks, size, o).box;
    forall t ensures PendingOf(after, t) == [] {
      FailureFreePassEmptiesIff(box, tasks, size, o, t);
    }
    EmptyBoxIdles(after, o');
    AllIdle(Pass(after, 0, ZERO), again, size', TaskRecoverer(o'), o'.stop);
  }

  // ---------------------------------------------------------------------------
  // One task, whatever its client, callbacks and shutdowns
  // ---------------------------------------------------------------------------

  ghost predicate RaisesAt(events: seq<Event>, task: string, o: Oracle, j: int)
    requires 0 <= j < |events|
  {
    o.client(task, events[j].id) == Delivered(true)
  }

  /** The first `m` events are attempted: then all are, or the flag is up, or the last callback raised. */
  ghost predicate AttemptsFirst(events: seq<Event>, from: int, task: string, o: Oracle, m: nat) {
    && m <= |events|
    && (forall n :: from <= n < from + m ==> !o.stop(n))
    && (forall j :: 0 <= j < m - 1 ==> !RaisesAt(events, task, o, j))
    && (m < |events| ==> (m > 0 && RaisesAt(events, task, o, m - 1)) || o.stop(from + m))
  }

  function IdsOf(events: seq<Event>): seq<string> {
    if events == [] then [] else IdsOf(events[..|events| - 1]) + [events[|events| - 1].id]
  }

  lemma {:induction false} IdsConcat(a: seq<Event>, b: seq<Event>)
    ensures IdsOf(a + b) == IdsOf(a) + IdsOf(b)
  {
    if b == [] {
      assert a + b == a;
    } else {
      assert (a + b)[..|a + b| - 1] == a + b[..|b| - 1];
      IdsConcat(a, b[..|b| - 1]);
    }
  }

  /** The loop, begun in state `w`, has collected what the first `m` events give. */
  ghost predicate Collected(w: Walk, r: Walk, events: seq<Event>, task: string, o: Oracle, m: nat)
    requires m <= |events|
  {
    && r.delivered == w.delivered + IdsOf(Filter(events[..m], IsDelivered(task, o)))
    && r.failed == w.failed + |Filter(events[..m], Undelivered(task, o))|
  }

  lemma CollectedNone(w: Walk, events: seq<Event>, task: string, o: Oracle)
    ensures Collected(w, w, events, task, o, 0)
  {
    assert w.delivered + [] == w.delivered;
  }

  lemma IdsOfCons(e: Event, rest: seq<Event>)
    ensures IdsOf([e] + rest) == [e.id] + IdsOf(rest)
  {
    IdsConcat([e], rest);
    assert [e][..0] == [];
  }

  lemma IdsOfFirst(first: seq<Event>, keep: Event -> bool)
    requires first != []
    ensures var rest := IdsOf(Filter(first[1..], keep));
            IdsOf(Filter(first, keep)) == if keep(first[0]) then [first[0].id] + rest else rest
  {
    var rest := Filter(first[1..], keep);
    FilterFirst(first, keep);
    NothingBefore(rest);
    IdsOfCons(first[0], rest);
  }

  /** One event more at the front. */
  lemma CollectedOneMore(w: Walk, r: Walk, events: seq<Event>, task: string, o: Oracle, m: nat)
    requires m < |events|
    requires Collected(After(w, events[0].id, o.client(task, events[0].id)), r, events[1..], task, o, m)
    ensures Collected(w, r, events, task, o, m + 1)
  {
    var e, first, rest := events[0], events[..m + 1], events[1..][..m];
    assert first[0] == e && first[1..] == rest;
    IdsOfFirst(first, IsDelivered(task, o));
    FilterFirst(first, Undelivered(task, o));
    var ids := IdsOf(Filter(rest, IsDelivered(task, o)));
    ConcatAssociates(w.delivered, [e.id], ids);
  }

  lemma AttemptsOneMore(events: seq<Event>, from: int, task: string, o: Oracle, m: nat)
    requires events != [] && !o.stop(from) && !RaisesAt(events, task, o, 0)
    requires AttemptsFirst(events[1..], from + 1, task, o, m)
    ensures AttemptsFirst(events, from, task, o, m + 1)
  {
    forall j | 0 <= j < m ensures !RaisesAt(events, task, o, j) {
      assert j > 0 ==> !RaisesAt(events[1..], task, o, j - 1);
    }
    if m > 0 && m < |events[1..]| && RaisesAt(events[1..], task, o, m - 1) {
      assert RaisesAt(events, task, o, m);
    }
  }

  /** The loop, begun in state `w` and ended in `r`, attempted the first `m` events. */
  ghost predicate Walked(w: Walk, r: Walk, events: seq<Event>, task: string, o: Oracle, m: nat) {
    && AttemptsFirst(events, w.polls, task, o, m) && Collected(w, r, events, task, o, m)
    && (r.raised <==> m > 0 && RaisesAt(events, task, o, m - 1))
  }

  lemma WalkedNone(w: Walk, r: Walk, events: seq<Event>, task: string, o: Oracle)
    requires !w.raised && (events == [] || o.stop(w.polls))
    requires r == DeliverEvents(w, task, events, o)
    ensures Walked(w, r, events, task, o, 0)
  {
    CollectedNone(w, events, task, o);
  }

  lemma WalkedOne(w: Walk, r: Walk, events: seq<Event>, task: string, o: Oracle)
    requires events != [] && !o.stop(w.polls) && RaisesAt(events, task, o, 0)
    requires r == After(w, events[0].id, o.client(task, events[0].id))
    ensures Walked(w, r, events, task, o, 1)
  {
    CollectedNone(r, events[1..], task, o);
    CollectedOneMore(w, r, events, task, o, 0);
  }

  lemma WalkedOneMore(w: Walk, r: Walk, events: seq<Event>, task: string, o: Oracle, m: nat)
    requires events != [] && !o.stop(w.polls) && !RaisesAt(events, task, o, 0)
    requires Walked(After(w, events[0].id, o.client(task, events[0].id)), r, events[1..], task, o, m)
    ensures Walked(w, r, events, task, o, m + 1)
  {
    AttemptsOneMore(events, w.polls, task, o, m);
    RaisesLater(events, task, o, m);
    CollectedOneMore(w, r, events, task, o, m);
  }

  lemma {:induction false} WalkAttempts(w: Walk, task: string, events: seq<Event>, o: Oracle) returns (m: nat)
    requires !w.raised
    ensures Walked(w, DeliverEvents(w, task, events, o), events, task, o, m)
    decreases |events|
  {
    var r := DeliverEvents(w, task, events, o);
    if events == [] || o.stop(w.polls) {
      m := 0;
      WalkedNone(w, r, events, task, o);
    } else {
      var w' := After(w, events[0].id, o.client(task, events[0].id));
      if w'.raised {
        m := 1;
        WalkedOne(w, r, events, task, o);
      } else {
        m := WalkAttempts(w', task, events[1..], o);
        WalkedOneMore(w, r, events, task, o, m);
        m := m + 1;
      }
    }
  }

  lemma RaisesLater(events: seq<Event>, task: string, o: Oracle, m: nat)
    requires m < |events| && !RaisesAt(events, task, o, 0)
    ensures RaisesAt(events, task, o, m) <==> m > 0 && RaisesAt(events[1..], task, o, m - 1)
  {
  }

  /**
   * What recovering a task comes to: for a task that is started, with pending events, the first `m` of them in
   * the order of their numbers are attempted, those delivered are acknowledged in that order, and the counts
   * are of these; after a callback that raised, all that were not delivered count as failed on top.
   */
  lemma TaskOutcome(box: Box, polls: int, task: string, o: Oracle) returns (m: nat)
    requires !o.stop(polls)
    ensures var events, r := GetPending(box, task), RecoverTask(box, polls, task, o);
            && AttemptsFirst(events, polls + 1, task, o, m)
            && var delivered := Filter(events[..m], IsDelivered(task, o));
               var raised := m > 0 && RaisesAt(events, task, o, m - 1);
               var failed := |Filter(events[..m], Undelivered(task, o))| + if raised then |events| - |delivered| else 0;
               && r.box == AckAll(box, task, IdsOf(delivered))
               && r.totals.found == |events| && r.totals.delivered == |delivered| && r.totals.failed == failed
               && r.totals.failedTasks == (if failed > 0 then 1 else 0)
               && r.totals.gaps == r.totals.resolved == (if o.gapDetection then GapCount(events) else 0)
  {
    var events := GetPending(box, task);
    var w := Walk(polls + 1, [], 0, false);
    m := WalkAttempts(w, task, events, o);
    var delivered := Filter(events[..m], IsDelivered(task, o));
    assert [] + IdsOf(delivered) == IdsOf(delivered);
    IdsSize(delivered);
  }

  lemma {:induction false} IdsSize(events: seq<Event>)
    ensures |IdsOf(events)| == |events|
  {
    if events == [] {
    } else {
      IdsSize(events[..|events| - 1]);
    }
  }

  // ---------------------------------------------------------------------------
  // When a callback raises
  // ---------------------------------------------------------------------------

  /** Some delivery fails before the first callback that raises. */
  ghost predicate FailsBeforeRaise(events: seq<Event>, task: string, o: Oracle) {
    var i := FirstRaise(events, task, o);
    i < |events| && exists j :: 0 <= j < i && !o.client(task, events[j].id).Delivered?
  }

  /** A shutdown leaves events that were found uncounted. */
  lemma {:induction false} WalkStops(w: Walk, task: string, events: seq<Event>, o: Oracle)
    requires !w.raised && UpWithin(w.polls, Looks(events, task, o), o)
    ensures var r := DeliverEvents(w, task, events, o);
            !r.raised && |r.delivered| + r.failed < |w.delivered| + w.failed + |events|
    decreases |events|
  {
    var n :| w.polls <= n < w.polls + Looks(events, task, o) && o.stop(n);
    if !o.stop(w.polls) {
      WalkStops(After(w, events[0].id, o.client(task, events[0].id)), task, events[1..], o);
    }
  }

  /** The flag is up before some event that the loop comes to. */
  ghost predicate StopsEarly(events: seq<Event>, polls: int, task: string, o: Oracle) {
    UpWithin(polls + 1, Looks(events, task, o), o)
  }

  /**
   * A task that is started at all has balanced counts if and only if no shutdown stops its loop early and no
   * callback raises after a failed delivery: a shutdown leaves events uncounted, and the handler counts the
   * earlier failures a second time.
   */
  lemma TaskBalancesIff(box: Box, polls: int, task: string, o: Oracle)
    ensures var totals, events := RecoverTask(box, polls, task, o).totals, GetPending(box, task);
            totals.found == totals.delivered + totals.failed
            <==> o.stop(polls) || (!StopsEarly(events, polls, task, o) && !FailsBeforeRaise(events, task, o))
  {
    var events := GetPending(box, task);
    if StopsEarly(events, polls, task, o) {
      WalkStops(Walk(polls + 1, [], 0, false), task, events, o);
    } else if !o.stop(polls) {
      UnstoppedBalancesIff(box, polls, task, o);
    }
  }

  lemma UnstoppedBalancesIff(box: Box, polls: int, task: string, o: Oracle)
    requires !o.stop(polls) && !StopsEarly(GetPending(box, task), polls, task, o)
    ensures var totals := RecoverTask(box, polls, task, o).totals;
            totals.found == totals.delivered + totals.failed <==> !FailsBeforeRaise(GetPending(box, task), task, o)
  {
    var events := GetPending(box, task);
    var i := FirstRaise(events, task, o);
    WalkCounts(Walk(polls + 1, [], 0, false), task, events, o);
    if i < |events| {
      var failedBefore := Filter(events[..i], Undelivered(task, o));
      if FailsBeforeRaise(events, task, o) {
        var j :| 0 <= j < i && !o.client(task, events[j].id).Delivered?;
        assert events[..i][j] in events[..i] && events[j] in failedBefore;
      } else {
        forall e | e in events[..i] ensures !Undelivered(task, o)(e) {
          var j :| 0 <= j < i && events[j] == e;
        }
        FilterNone(events[..i], Undelivered(task, o));
      }
    }
  }

  /** The first event is refused, and after the delivery of any other the callback raises. */
  const SECOND_RAISES: Oracle :=
    Oracle((task, id) => if id == GENERATED_ID then Refused else Delivered(true), n => false, false)

  const FIRST_EVENT: Event := Event(GENERATED_ID, 0, "", true)
  const SECOND_EVENT: Event := Event(OTHER_ID, 1, "", true)

  lemma TwoStored()
    ensures var (one, first) := StoreOutcome(EMPTY, "t", FIRST_EVENT);
            var (two, second) := StoreOutcome(one, "t", SECOND_EVENT);
            first == None && second == None && PendingOf(two, "t") == [FIRST_EVENT, SECOND_EVENT]
  {
    StripKeeps("t");
    TwoGeneratedIds();
    assert [] + [FIRST_EVENT] == [FIRST_EVENT];
    assert [FIRST_EVENT] + [SECOND_EVENT] == [FIRST_EVENT, SECOND_EVENT];
  }

  /** Two stored events, the first refused, the callback of the second raising: one delivered, two counted as failed. */
  lemma FailureCountedTwice(polls: int)
    ensures var box := StoreOutcome(StoreOutcome(EMPTY, "t", FIRST_EVENT).0, "t", SECOND_EVENT).0;
            var totals := RecoverTask(box, polls, "t", SECOND_RAISES).totals;
            totals.found == 2 && totals.delivered == 1 && totals.failed == 2
  {
    TwoStored();
    TwoRecovered(StoreOutcome(StoreOutcome(EMPTY, "t", FIRST_EVENT).0, "t", SECOND_EVENT).0, polls);
  }

  lemma TwoRecovered(box: Box, polls: int)
    requires PendingOf(box, "t") == [FIRST_EVENT, SECOND_EVENT]
    ensures var totals := RecoverTask(box, polls, "t", SECOND_RAISES).totals;
            totals.found == 2 && totals.delivered == 1 && totals.failed == 2
  {
    var events, w := PendingOf(box, "t"), Walk(polls + 1, [], 0, false);
    StripKeeps("t");
    TwoGeneratedIds();
    SortIsIdentityOnSorted(events);
    assert GetPending(box, "t") == events;
    WalkUnfolds(w, "t", events, 0, SECOND_RAISES);
    WalkUnfolds(After(w, GENERATED_ID, Refused), "t", events, 1, SECOND_RAISES);
    assert events[0..] == events;
    assert WalkTask(events, polls, "t", SECOND_RAISES) == Walk(polls + 3, [OTHER_ID], 1, true);
  }

  // ---------------------------------------------------------------------------
  // An id that stripping changes
  // ---------------------------------------------------------------------------

  /** Every delivery gets a response, and nothing interrupts. */
  const ALL_DELIVERED: Oracle := Oracle((task, id) => Delivered(false), n => false, false)

  /** The event with a newline after its id is counted as delivered, and stays pending. */
  lemma NewlineIdSurvivesRecovery(polls: int) returns (box: Box, e: Event)
    ensures box == StoreOutcome(EMPTY, "t", e).0 && PendingOf(box, "t") == [e]
    ensures var r := RecoverTask(box, polls, "t", ALL_DELIVERED);
            r.totals.delivered == 1 && r.totals.failed == 0 && PendingOf(r.box, "t") == [e]
  {
    e := NewlineIdStaysPending(EMPTY);
    box := StoreOutcome(EMPTY, "t", e).0;
    StripKeeps("t");
    NewlineIdIsAccepted();
    OnlyEventDelivered(box, polls, "t", e);
    FilterOne(e, HasOtherId(Strip(e.id)));
    SchemaIdStrips(e.id);
  }

  /** The recovery of a task with one pending event, delivered, is the acknowledgement of that event. */
  lemma OnlyEventDelivered(box: Box, polls: int, task: string, e: Event)
    requires Strip(task) == task != "" && PendingOf(box, task) == [e]
    ensures var r := RecoverTask(box, polls, task, ALL_DELIVERED);
            r.totals.delivered == 1 && r.totals.failed == 0 && r.box == Acknowledge(box, task, e.id).0
  {
    SortIsIdentityOnSorted([e]);
    assert GetPending(box, task) == [e];
    WalkUnfolds(Walk(polls + 1, [], 0, false), task, [e], 0, ALL_DELIVERED);
    assert [e][0..] == [e] && [e][1..] == [];
    assert WalkTask([e], polls, task, ALL_DELIVERED) == Walk(polls + 2, [e.id], 0, false);
    AckOneMore(box, task, [], e.id);
    assert [] + [e.id] == [e.id];
  }

  // ---------------------------------------------------------------------------
  // The service
  // ---------------------------------------------------------------------------

  /** The tasks of a dictionary in some order. */
  method ListOf(tasks: set<string>) returns (list: seq<string>)
    ensures NoDuplicates(list) && forall t :: t in list <==> t in tasks
  {
    list := [];
    var rest := tasks;
    while rest != {}
      invariant rest <= tasks && NoDuplicates(list)
      invariant forall t :: t in list <==> t in tasks && t !in rest
      decreases |rest|
    {
      var t :| t in rest;
      list := list + [t];
      rest := rest - {t};
    }
  }

  lemma WalkUnfolds(w: Walk, task: string, pending: seq<Event>, i: nat, o: Oracle)
    requires i < |pending| && !w.raised
    ensures DeliverEvents(w, task, pending[i..], o)
         == if o.stop(w.polls) then w.(polls := w.polls + 1)
            else DeliverEvents(After(w, pending[i].id, o.client(task, pending[i].id)), task, pending[i + 1..], o)
  {
    assert pending[i..][0] == pending[i] && pending[i..][1..] == pending[i + 1..];
  }

  lemma BatchUnfolds(box: Box, looks: int, totals: Totals, tasks: seq<string>, recover: Recoverer, stop: int -> bool,
                     r: Pass)
    requires tasks != [] && !stop(looks - 1) && r == recover(box, looks, tasks[0])
    ensures RecoverBatch(Pass(box, looks - 1, totals), tasks, recover, stop)
         == RecoverBatch(Pass(r.box, r.polls, Add(totals, r.totals)), tasks[1..], recover, stop)
  {
  }

  lemma AllContinues(goal: Pass, p: Pass, tasks: seq<string>, i: nat, size: nat, recover: Recoverer, stop: int -> bool,
                     r: Pass)
    requires size >= 1 && i < |tasks| && !stop(p.polls) && goal == RecoverAll(p, tasks[i..], size, recover, stop)
    requires var end := if size < |tasks| - i then i + size else |tasks|;
             r == RecoverBatch(Pass(p.box, p.polls + 1, p.totals), tasks[i..end], recover, stop)
    ensures var end := if size < |tasks| - i then i + size else |tasks|;
            goal == RecoverAll(r, tasks[end..], size, recover, stop)
  {
    var rest, n := tasks[i..], if size < |tasks| - i then size else |tasks| - i;
    SliceOfTail(tasks, i, n);
    assert RecoverAll(p, rest, size, recover, stop)
        == RecoverAll(RecoverBatch(Pass(p.box, p.polls + 1, p.totals), rest[..n], recover, stop), rest[n..], size,
                      recover, stop);
  }

  datatype ServiceMetrics = ServiceMetrics(recoveries: int, successful: int, failed: int, eventsRecovered: int,
                                           gapsResolved: int)

  /** Whether the callbacks around a recovery raise. */
  datatype Callbacks = Callbacks(startRaises: bool, completeRaises: bool)

  function Failed(m: ServiceMetrics): ServiceMetrics {
    m.(failed := m.failed + 1)
  }

  /** A recovery that came to its end counts as successful exactly if no delivery failed. */
  function Recovered(m: ServiceMetrics, totals: Totals): ServiceMetrics {
    ServiceMetrics(m.recoveries + 1,
                   m.successful + (if totals.failed == 0 then 1 else 0),
                   m.failed + (if totals.failed == 0 then 0 else 1),
                   m.eventsRecovered + totals.delivered,
                   m.gapsResolved + totals.resolved)
  }

  /** How a pass ended: before its batches, or with totals and a last callback that may raise. */
  datatype PassEnd = NotStarted | Ended(totals: Totals, completeRaises: bool)

  function CountedPass(m: ServiceMetrics, e: PassEnd): ServiceMetrics {
    match e
    case NotStarted => Failed(m)
    case Ended(totals, completeRaises) => if completeRaises then Failed(Recovered(m, totals)) else Recovered(m, totals)
  }

  const NO_METRICS: ServiceMetrics := ServiceMetrics(0, 0, 0, 0, 0)

  function MetricsOf(ends: seq<PassEnd>): ServiceMetrics {
    if ends == [] then NO_METRICS else CountedPass(MetricsOf(ends[..|ends| - 1]), ends[|ends| - 1])
  }

  function IsEnded(): PassEnd -> bool {
    (e: PassEnd) => e.Ended?
  }

  function IsClean(): PassEnd -> bool {
    (e: PassEnd) => e.Ended? && e.totals.failed == 0
  }

  function RaisesAtEnd(): PassEnd -> bool {
    (e: PassEnd) => e.Ended? && e.completeRaises
  }

  function DeliveredIn(ends: seq<PassEnd>): int {
    if ends == [] then 0
    else DeliveredIn(ends[..|ends| - 1]) + if ends[|ends| - 1].Ended? then ends[|ends| - 1].totals.delivered else 0
  }

  function ResolvedIn(ends: seq<PassEnd>): int {
    if ends == [] then 0
    else ResolvedIn(ends[..|ends| - 1]) + if ends[|ends| - 1].Ended? then ends[|ends| - 1].totals.resolved else 0
  }

  /**
   * Over any passes: recoveries are those that ended, successes those of them without a failed delivery, and
   * successes and failures are all passes, those whose last callback raised counted twice.
   */
  lemma {:induction false} MetricsCount(ends: seq<PassEnd>)
    ensures var m := MetricsOf(ends);
            && m.recoveries == |Filter(ends, IsEnded())|
            && m.successful == |Filter(ends, IsClean())|
            && m.successful + m.failed == |ends| + |Filter(ends, RaisesAtEnd())|
            && m.eventsRecovered == DeliveredIn(ends) && m.gapsResolved == ResolvedIn(ends)
  {
    if ends == [] {
    } else {
      MetricsCount(ends[..|ends| - 1]);
    }
  }

  class EventRecoveryService {
    const outbox: MemoryOutbox
    const batchSize: int
    var metrics: ServiceMetrics
    var polls: int

    constructor (outbox: MemoryOutbox, batchSize: int)
      ensures this.outbox == outbox && this.batchSize == batchSize
      ensures metrics == ServiceMetrics(0, 0, 0, 0, 0) && polls == 0
    {
      this.outbox, this.batchSize := outbox, batchSize;
      metrics, polls := ServiceMetrics(0, 0, 0, 0, 0), 0;
    }

    method ShutdownRequested(o: Oracle) returns (stop: bool)
      modifies this`polls
      ensures stop == o.stop(old(polls)) && polls == old(polls) + 1
    {
      stop := o.stop(polls);
      polls := polls + 1;
    }

    /** True if the event was delivered; then it is acknowledged. */
    method RecoverSingleEvent(task: string, event: Event, o: Oracle) returns (success: bool)
      requires Canonical(outbox.Abs())
      modifies outbox
      ensures Canonical(outbox.Abs())
      ensures success == o.client(task, event.id).Delivered?
      ensures outbox.Abs() == if success then Acknowledge(old(outbox.Abs()), task, event.id).0 else old(outbox.Abs())
    {
      match o.client(task, event.id)
      case Delivered(_) =>
        var found := outbox.AcknowledgeEvent(task, event.id);
        return true;
      case Refused => return false;
      case Raised => return false;
    }

    /** The body of the delivery loop, unless a shutdown was requested. */
    method DeliverNext(task: string, pending: seq<Event>, i: nat, o: Oracle, ghost w: Walk, ghost box: Box)
      returns (stopped: bool, success: bool, raised: bool, ghost next: Walk)
      requires i < |pending| && !w.raised && polls == w.polls
      requires Canonical(outbox.Abs()) && outbox.Abs() == AckAll(box, task, w.delivered)
      modifies outbox, this`polls
      ensures Canonical(outbox.Abs()) && outbox.Abs() == AckAll(box, task, next.delivered)
      ensures polls == next.polls && raised == next.raised && (stopped ==> !success)
      ensures |next.delivered| == |w.delivered| + (if success then 1 else 0)
      ensures next.failed == w.failed + (if stopped || success then 0 else 1)
      ensures DeliverEvents(w, task, pending[i..], o)
           == if stopped then next else DeliverEvents(next, task, pending[i + 1..], o)
    {
      WalkUnfolds(w, task, pending, i, o);
      var stop := ShutdownRequested(o);
      if stop {
        return true, false, false, w.(polls := w.polls + 1);
      }
      next := After(w, pending[i].id, o.client(task, pending[i].id));
      AckOneMore(box, task, w.delivered, pending[i].id);
      success := RecoverSingleEvent(task, pending[i], o);
      return false, success, success && o.client(task, pending[i].id).callbackRaises, next;
    }

    /** The delivery loop of a task: successes, failures, and whether a callback raised. */
    method DeliverPending(task: string, pending: seq<Event>, o: Oracle)
      returns (successful: int, failed: int, raised: bool, ghost walk: Walk)
      requires Canonical(outbox.Abs())
      modifies outbox, this`polls
      ensures Canonical(outbox.Abs())
      ensures walk == DeliverEvents(Walk(old(polls), [], 0, false), task, pending, o)
      ensures polls == walk.polls && successful == |walk.delivered| && failed == walk.failed && raised == walk.raised
      ensures outbox.Abs() == AckAll(old(outbox.Abs()), task, walk.delivered)
    {
      successful, failed, raised := 0, 0, false;
      walk := Walk(polls, [], 0, false);
      Tails(pending);
      ghost var goal := DeliverEvents(walk, task, pending, o);
      for i := 0 to |pending|
        invariant Canonical(outbox.Abs()) && outbox.Abs() == AckAll(old(outbox.Abs()), task, walk.delivered)
        invariant polls == walk.polls && successful == |walk.delivered| && failed == walk.failed
        invariant !raised && !walk.raised
        invariant goal == DeliverEvents(walk, task, pending[i..], o)
      {
        var stopped, success;
        stopped, success, raised, walk := DeliverNext(task, pending, i, o, walk, old(outbox.Abs()));
        if stopped {
          return;
        }
        if success {
          successful := successful + 1;
        } else {
          failed := failed + 1;
        }
        if raised {
          return;
        }
      }
    }

    method RecoverTaskEvents(task: string, o: Oracle) returns (totals: Totals)
      requires Canonical(outbox.Abs())
      modifies outbox, this`polls
      ensures Canonical(outbox.Abs())
      ensures Pass(outbox.Abs(), polls, totals) == RecoverTask(old(outbox.Abs()), old(polls), task, o)
    {
      var stop := ShutdownRequested(o);
      if stop {
        return ZERO;
      }
      var pending := outbox.GetPendingEvents(task);
      if pending == [] {
        return ZERO;
      }
      var gaps, resolved := 0, 0;
      if o.gapDetection {
        gaps, resolved := DetectAndResolveSequenceGaps(pending);
      }
      var successful, failed, raised, walk := DeliverPending(task, pending, o);
      if raised {
        DeliveredAtMost(Walk(old(polls) + 1, [], 0, false), task, pending, o);
        failed := failed + |pending| - successful;
      }
      totals := Totals(|pending|, successful, failed, if failed > 0 then 1 else 0, gaps, resolved);
    }

    /** The totals of the batch, on top of what was counted `before` it. */
    method RecoverTaskBatch(tasks: seq<string>, o: Oracle, ghost recover: Recoverer, ghost before: Totals)
      returns (totals: Totals)
      requires Describes(recover, o) && Canonical(outbox.Abs())
      modifies outbox, this`polls
      ensures Canonical(outbox.Abs())
      ensures Pass(outbox.Abs(), polls, Add(before, totals))
           == RecoverBatch(Pass(old(outbox.Abs()), old(polls), before), tasks, recover, o.stop)
    {
      totals := ZERO;
      ghost var goal := RecoverBatch(Pass(outbox.Abs(), polls, before), tasks, recover, o.stop);
      for i := 0 to |tasks|
        invariant Canonical(outbox.Abs())
        invariant goal == RecoverBatch(Pass(outbox.Abs(), polls, Add(before, totals)), tasks[i..], recover, o.stop)
      {
        var stop := ShutdownRequested(o);
        if stop {
          return;
        }
        ghost var box, looks := outbox.Abs(), polls;
        var task := RecoverTaskEvents(tasks[i], o);
        assert recover(box, looks, tasks[i]) == RecoverTask(box, looks, tasks[i], o);
        BatchUnfolds(box, looks, Add(before, totals), tasks[i..], recover, o.stop, Pass(outbox.Abs(), polls, task));
        assert tasks[i..][1..] == tasks[i + 1..];
        AddAssociates(before, totals, task);
        totals := Add(totals, task);
      }
    }

    /**
     * `None` if the recovery raises: because the start callback does, because the batch size is zero, or,
     * when all is done and counted, because the completion callback does. A negative batch size recovers
     * nothing.
     */
    method PerformRecovery(o: Oracle, callbacks: Callbacks) returns (result: Option<Totals>, ghost tasks: seq<string>)
      requires Canonical(outbox.Abs())
      modifies outbox, this
      ensures Canonical(outbox.Abs())
      ensures NoDuplicates(tasks) && forall t :: t in tasks <==> t in old(outbox.Abs()).pending
      ensures var before := old(outbox.Abs());
              var pass := if batchSize >= 1 then PassResult(before, tasks, batchSize, o) else Pass(before, 0, ZERO);
              if callbacks.startRaises || (batchSize == 0 && tasks != []) then
                && result == None && outbox.Abs() == before
                && metrics == Failed(old(metrics))
              else
                && outbox.Abs() == pass.box
                && result == (if callbacks.completeRaises then None else Some(pass.totals))
                && metrics == if callbacks.completeRaises then Failed(Recovered(old(metrics), pass.totals))
                              else Recovered(old(metrics), pass.totals)
    {
      polls := 0;
      var totals := ZERO;
      var pending := outbox.GetAllPendingTasks();
      var list := ListOf(pending);
      tasks := list;
      if callbacks.startRaises || (list != [] && batchSize == 0) {
        metrics := metrics.(failed := metrics.failed + 1);
        return None, tasks;
      }
      if batchSize >= 1 {
        totals := RecoverBatches(list, batchSize, o, TaskRecoverer(o));
      }
      metrics := metrics.(recoveries := metrics.recoveries + 1);
      if totals.failed == 0 {
        metrics := metrics.(successful := metrics.successful + 1);
      } else {
        metrics := metrics.(failed := metrics.failed + 1);
      }
      metrics := metrics.(eventsRecovered := metrics.eventsRecovered + totals.delivered,
                          gapsResolved := metrics.gapsResolved + totals.resolved);
      if callbacks.completeRaises {
        metrics := metrics.(failed := metrics.failed + 1);
        return None, tasks;
      }
      return Some(totals), tasks;
    }

    /** The batch from position `i` on, unless a shutdown was requested. */
    method RecoverNextBatch(tasks: seq<string>, i: nat, size: nat, o: Oracle, before: Totals, ghost recover: Recoverer,
                            ghost goal: Pass)
      returns (stopped: bool, totals: Totals)
      requires size >= 1 && i < |tasks| && Describes(recover, o) && Canonical(outbox.Abs())
      requires goal == RecoverAll(Pass(outbox.Abs(), polls, before), tasks[i..], size, recover, o.stop)
      modifies outbox, this`polls
      ensures Canonical(outbox.Abs())
      ensures stopped ==> goal == Pass(outbox.Abs(), polls, totals)
      ensures !stopped ==>
        var end := if size < |tasks| - i then i + size else |tasks|;
        goal == RecoverAll(Pass(outbox.Abs(), polls, totals), tasks[end..], size, recover, o.stop)
    {
      ghost var p := Pass(outbox.Abs(), polls, before);
      var stop := ShutdownRequested(o);
      if stop {
        return true, before;
      }
      var end := if size < |tasks| - i then i + size else |tasks|;
      var batch := RecoverTaskBatch(tasks[i..end], o, recover, before);
      totals := Add(before, batch);
      AllContinues(goal, p, tasks, i, size, recover, o.stop, Pass(outbox.Abs(), polls, totals));
      return false, totals;
    }

    /** The loop over batches. */
    method RecoverBatches(tasks: seq<string>, size: nat, o: Oracle, ghost recover: Recoverer) returns (totals: Totals)
      requires size >= 1 && polls == 0 && Describes(recover, o) && Canonical(outbox.Abs())
      modifies outbox, this`polls
      ensures Canonical(outbox.Abs())
      ensures Pass(outbox.Abs(), polls, totals)
           == RecoverAll(Pass(old(outbox.Abs()), 0, ZERO), tasks, size, recover, o.stop)
    {
      totals := ZERO;
      ghost var goal := RecoverAll(Pass(outbox.Abs(), 0, ZERO), tasks, size, recover, o.stop);
      var i := 0;
      while i < |tasks|
        invariant 0 <= i <= |tasks| && Canonical(outbox.Abs())
        invariant goal == RecoverAll(Pass(outbox.Abs(), polls, totals), tasks[i..], size, recover, o.stop)
      {
        var stopped;
        stopped, totals := RecoverNextBatch(tasks, i, size, o, totals, recover, goal);
        if stopped {
          return;
        }
        i := if size < |tasks| - i then i + size else |tasks|;
      }
      assert |tasks[i..]| == 0;
    }
  }

  lemma {:induction false} DeliveredAtMost(w: Walk, task: string, events: seq<Event>, o: Oracle)
    ensures |DeliverEvents(w, task, events, o).delivered| <= |w.delivered| + |events|
    decreases |events|
  {
    if events != [] && !w.raised && !o.stop(w.polls) {
      DeliveredAtMost(After(w, events[0].id, o.client(task, events[0].id)), task, events[1..], o);
    }
  }
}
