/**
 * The two backends of the outbox. Each public method is proved equal to the same operation of the
 * abstract outbox, so callers cannot tell the backends apart.
 */
module OutboxBackends {
  import opened Sequences
  import opened Text
  import opened Outbox

  // ---------------------------------------------------------------------------
  // Process memory
  // ---------------------------------------------------------------------------

  class MemoryOutbox {
    var localStore: map<string, seq<Event>>
    var localSeq: map<string, nat>

    constructor ()
      ensures Abs() == EMPTY && Canonical(Abs())
    {
      localStore, localSeq := map[], map[];
    }

    function Abs(): Box
      reads this
    {
      Box(localStore, localSeq)
    }

    method StoreEvent(task: string, event: Event) returns (error: Option<OutboxError>)
      requires Canonical(Abs())
      modifies this
      ensures Canonical(Abs()) && (Abs(), error) == StoreOutcome(old(Abs()), task, event)
    {
      var taskId := Strip(task);
      if taskId == "" {
        return Some(TaskIdRequired);
      }
      if !SchemaValid(event) {
        return Some(InvalidEvent);
      }
      ghost var before := Abs();
      if taskId !in localStore {
        localStore := localStore[taskId := []];
      }
      localStore := localStore[taskId := localStore[taskId] + [event]];
      localSeq := localSeq[taskId := (if taskId in localSeq then localSeq[taskId] else 0) + 1];
      assert localStore == StoreIn(before, taskId, event).pending;
      return None;
    }

    method AcknowledgeEvent(task: string, id: string) returns (found: bool)
      requires Canonical(Abs())
      modifies this
      ensures Canonical(Abs()) && (Abs(), found) == Acknowledge(old(Abs()), task, id)
    {
      var taskId, eventId := Strip(task), Strip(id);
      if taskId == "" || eventId == "" {
        return false;
      }
      ghost var before := Abs();
      var events := if taskId in localStore then localStore[taskId] else [];
      var originalCount := |events|;
      localStore := localStore[taskId := Filter(events, HasOtherId(eventId))];
      if localStore[taskId] == [] {
        localStore := localStore - {taskId};
      }
      assert localStore == AckIn(before, taskId, eventId).0.pending;
      found := |(if taskId in localStore then localStore[taskId] else [])| < originalCount;
    }

    method GetPendingEvents(task: string) returns (events: seq<Event>)
      ensures events == GetPending(Abs(), task)
    {
      var taskId := Strip(task);
      if taskId == "" {
        return [];
      }
      events := if taskId in localStore then localStore[taskId] else [];
      events := StableSort(events);
    }

    method GetAllPendingTasks() returns (tasks: set<string>)
      ensures tasks == Abs().pending.Keys
    {
      tasks := localStore.Keys;
    }

    method NextSequence(task: string) returns (n: nat)
      ensures n == GetNextSequence(Abs(), task)
    {
      var taskId := Strip(task);
      n := if taskId != "" && taskId in localSeq then localSeq[taskId] else 0;
    }

    method CleanupTask(task: string)
      requires Canonical(Abs())
      modifies this
      ensures Canonical(Abs()) && Abs() == Cleanup(old(Abs()), task)
    {
      var taskId := Strip(task);
      if taskId != "" {
        localStore := localStore - {taskId};
        localSeq := localSeq - {taskId};
      }
    }
  }

  // ---------------------------------------------------------------------------
  // Redis lists
  // ---------------------------------------------------------------------------

  /** JSON encoding is the identity here: a list cell is the event it encodes. */
  datatype RedisValue = EventList(cells: seq<Event>) | Counter(n: nat)

  /** The keys of one namespace. */
  datatype RedisKey = EventsKey(task: string) | SeqKey(task: string)

  type Db = map<RedisKey, RedisValue>

  function EventsPrefix(namespace: string): string {
    namespace + ":events:"
  }

  /** The key as Redis stores it. */
  function KeyText(namespace: string, key: RedisKey): string {
    match key
    case EventsKey(task) => EventsPrefix(namespace) + task
    case SeqKey(task) => namespace + ":seq:" + task
  }

  /**
   * Different keys have different texts, and a scan for the events prefix finds exactly the event keys,
   * with the task as the rest of the text.
   */
  lemma KeyTextsAreDistinct(namespace: string, a: RedisKey, b: RedisKey)
    ensures KeyText(namespace, a) == KeyText(namespace, b) ==> a == b
    ensures StartsWith(KeyText(namespace, a), EventsPrefix(namespace)) <==> a.EventsKey?
    ensures a.EventsKey? ==> KeyText(namespace, a)[|EventsPrefix(namespace)|..] == a.task
  {
    var n := |namespace|;
    forall k: RedisKey
      ensures |KeyText(namespace, k)| > n + 1 && KeyText(namespace, k)[n + 1] == if k.EventsKey? then 'e' else 's'
      ensures KeyText(namespace, k)[n + (if k.EventsKey? then 8 else 5)..] == k.task
      ensures k.EventsKey? ==> KeyText(namespace, k)[..n + 8] == EventsPrefix(namespace)
    {
    }
    assert EventsPrefix(namespace)[n + 1] == 'e';
    assert |KeyText(namespace, a)| >= n + 8 ==> KeyText(namespace, a)[..n + 8][n + 1] == KeyText(namespace, a)[n + 1];
  }

  /** The list and the counter of each task are the pending events and the store count of the box. */
  ghost predicate Represents(db: Db, b: Box) {
    && (forall t :: EventsKey(t) in db <==> t in b.pending)
    && (forall t :: t in b.pending ==> b.pending[t] != [] && db[EventsKey(t)] == EventList(b.pending[t]))
    && (forall t :: SeqKey(t) in db <==> t in b.stored)
    && (forall t :: t in b.stored ==> db[SeqKey(t)] == Counter(b.stored[t]))
  }

  /** A database represents at most one box. */
  lemma RepresentsOne(db: Db, a: Box, b: Box)
    requires Represents(db, a) && Represents(db, b)
    ensures a == b
  {
    forall t ensures t in a.pending <==> t in b.pending {
      assert EventsKey(t) in db <==> t in a.pending;
    }
    forall t | t in a.pending ensures a.pending[t] == b.pending[t] {
      assert db[EventsKey(t)] == EventList(a.pending[t]);
    }
    forall t ensures t in a.stored <==> t in b.stored {
      assert SeqKey(t) in db <==> t in a.stored;
    }
    forall t | t in a.stored ensures a.stored[t] == b.stored[t] {
      assert db[SeqKey(t)] == Counter(a.stored[t]);
    }
    assert a.pending == b.pending && a.stored == b.stored;
  }

  function EventTasks(db: Db): (r: set<string>)
    ensures forall t :: t in r <==> EventsKey(t) in db
  {
    var r := set k | k in db && k.EventsKey? :: k.task;
    assert forall t :: EventsKey(t) in db ==> EventsKey(t).task in r;
    r
  }

  function CellsOf(db: Db, task: string): seq<Event> {
    if EventsKey(task) in db && db[EventsKey(task)].EventList? then db[EventsKey(task)].cells else []
  }

  function CountOf(db: Db, task: string): nat {
    if SeqKey(task) in db && db[SeqKey(task)].Counter? then db[SeqKey(task)].n else 0
  }

  function WithList(db: Db, task: string, cells: seq<Event>): Db {
    if cells == [] then db - {EventsKey(task)} else db[EventsKey(task) := EventList(cells)]
  }

  lemma Lookups(db: Db, b: Box, t: string)
    requires Represents(db, b)
    ensures CellsOf(db, t) == PendingOf(b, t) && CountOf(db, t) == NextSeq(b, t)
  {
  }

  /** Setting or deleting the list of one task. */
  lemma ListStep(db: Db, b: Box, task: string, cells: seq<Event>)
    requires Represents(db, b)
    ensures Represents(WithList(db, task, cells), WithPending(b, task, cells))
  {
  }

  /** Setting or deleting the counter of one task. */
  lemma CounterStep(db: Db, b: Box, task: string, n: nat)
    requires Represents(db, b)
    ensures Represents(db[SeqKey(task) := Counter(n)], b.(stored := b.stored[task := n]))
    ensures Represents(db - {SeqKey(task)}, b.(stored := b.stored - {task}))
  {
  }

  /** The loop of the acknowledgement script. */
  method WithoutId(events: seq<Event>, id: string) returns (kept: seq<Event>, found: bool)
    ensures kept == Filter(events, HasOtherId(id)) && (found <==> |kept| < |events|)
  {
    kept, found := [], false;
    for i := 0 to |events|
      invariant kept == Filter(events[..i], HasOtherId(id))
      invariant found <==> |kept| < i
    {
      FilterNext(events, i, HasOtherId(id));
      if events[i].id != id {
        kept := kept + [events[i]];
      } else {
        found := true;
      }
    }
    WholeSlice(events);
  }

  class RedisOutbox {
    var db: Db
    ghost var box: Box

    constructor (db: Db, ghost box: Box)
      requires Represents(db, box)
      ensures this.db == db && this.box == box && Valid()
    {
      this.db, this.box := db, box;
    }

    ghost predicate Valid()
      reads this
    {
      Represents(db, box)
    }

    /** The store script: RPUSH the event, INCR the counter. */
    method StoreScript(task: string, event: Event)
      requires Valid()
      modifies this
      ensures Valid() && box == StoreIn(old(box), task, event)
    {
      Lookups(db, box, task);
      var cells := CellsOf(db, task) + [event];
      var count := CountOf(db, task) + 1;
      ListStep(db, box, task, cells);
      CounterStep(WithList(db, task, cells), WithPending(box, task, cells), task, count);
      db := db[EventsKey(task) := EventList(cells)];
      db := db[SeqKey(task) := Counter(count)];
      box := StoreIn(box, task, event);
    }

    /** The acknowledgement script: rebuild the list without the event, if it is there. */
    method AckScript(task: string, id: string) returns (found: bool)
      requires Valid()
      modifies this
      ensures Valid() && (box, found) == AckIn(old(box), task, id)
    {
      Lookups(db, box, task);
      var events := CellsOf(db, task);
      var kept: seq<Event>;
      kept, found := WithoutId(events, id);
      ListStep(db, box, task, kept);
      ghost var before := db;
      box := AckIn(box, task, id).0;
      if found {
        db := db - {EventsKey(task)};
        if |kept| > 0 {
          db := db[EventsKey(task) := EventList(kept)];
        }
        assert db == WithList(before, task, kept);
      } else {
        FilterOfFullLength(events, HasOtherId(id));
        assert WithList(db, task, kept) == db;
      }
    }

    method StoreEvent(task: string, event: Event) returns (error: Option<OutboxError>)
      requires Valid()
      modifies this
      ensures Valid() && (box, error) == StoreOutcome(old(box), task, event)
    {
      var taskId := Strip(task);
      if taskId == "" {
        return Some(TaskIdRequired);
      }
      if !SchemaValid(event) {
        return Some(InvalidEvent);
      }
      StoreScript(taskId, event);
      return None;
    }

    method AcknowledgeEvent(task: string, id: string) returns (found: bool)
      requires Valid()
      modifies this
      ensures Valid() && (box, found) == Acknowledge(old(box), task, id)
    {
      var taskId, eventId := Strip(task), Strip(id);
      if taskId == "" || eventId == "" {
        return false;
      }
      found := AckScript(taskId, eventId);
    }

    method GetPendingEvents(task: string) returns (events: seq<Event>)
      requires Valid()
      ensures events == GetPending(box, task)
    {
      var taskId := Strip(task);
      if taskId == "" {
        return [];
      }
      Lookups(db, box, taskId);
      events := StableSort(CellsOf(db, taskId));
    }

    /** The tasks of all keys under the events prefix; an empty task is skipped. */
    method GetAllPendingTasks() returns (tasks: set<string>)
      requires Valid()
      ensures tasks == box.pending.Keys - {""}
    {
      tasks := EventTasks(db) - {""};
      assert forall t :: t in EventTasks(db) <==> t in box.pending.Keys;
    }

    method NextSequence(task: string) returns (n: nat)
      requires Valid()
      ensures n == GetNextSequence(box, task)
    {
      var taskId := Strip(task);
      if taskId == "" {
        return 0;
      }
      Lookups(db, box, taskId);
      n := CountOf(db, taskId);
    }

    method CleanupTask(task: string)
      requires Valid()
      modifies this
      ensures Valid() && box == Cleanup(old(box), task)
    {
      var taskId := Strip(task);
      if taskId == "" {
        return;
      }
      ListStep(db, box, taskId, []);
      CounterStep(WithList(db, taskId, []), WithPending(box, taskId, []), taskId, 0);
      db := db - {EventsKey(taskId)};
      db := db - {SeqKey(taskId)};
      box := Cleanup(box, task);
    }
  }
}
