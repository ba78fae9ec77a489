/**
 * The persistent event outbox: one abstract outbox, and the memory and the Redis-list backends that
 * refine it. Redis is a map from keys to values; its time-to-live is not modelled.
 */
module Outbox {
  import opened Sequences
  import opened Text

  /** `schemaOk` is the verdict of the JSON schema on the fields that are not modelled. */
  datatype Event = Event(id: string, seqNo: int, body: string, schemaOk: bool)

  predicate IsHexLower(c: char) {
    '0' <= c <= '9' || 'a' <= c <= 'f'
  }

  /** The ids that the publishers build: evt_ and 32 hex digits. */
  predicate IsGeneratedId(id: string) {
    |id| == 36 && StartsWith(id, "evt_") && forall c :: c in id[4..] ==> IsHexLower(c)
  }

  /** What `^evt_[a-f0-9]{32}$` accepts: the `$` also matches before one newline at the end. */
  predicate IsSchemaId(id: string) {
    IsGeneratedId(id) || (|id| == 37 && id[36] == '\n' && IsGeneratedId(id[..36]))
  }

  /** The schema: an id that matches the pattern and a sequence number that is not negative. */
  predicate SchemaValid(e: Event) {
    IsSchemaId(e.id) && e.seqNo >= 0 && e.schemaOk
  }

  datatype OutboxError = TaskIdRequired | InvalidEvent

  // ---------------------------------------------------------------------------
  // Stable sort by sequence number
  // ---------------------------------------------------------------------------

  function Insert(s: seq<Event>, e: Event): seq<Event> {
    if s == [] then [e]
    else if s[|s| - 1].seqNo <= e.seqNo then s + [e]
    else Insert(s[..|s| - 1], e) + [s[|s| - 1]]
  }

  /** `events.sort(key=seq)` */
  function StableSort(s: seq<Event>): seq<Event> {
    if s == [] then [] else Insert(StableSort(s[..|s| - 1]), s[|s| - 1])
  }

  ghost predicate SortedBySeq(s: seq<Event>) {
    forall i, j :: 0 <= i < j < |s| ==> s[i].seqNo <= s[j].seqNo
  }

  function HasSeq(n: int): Event -> bool {
    (e: Event) => e.seqNo == n
  }

  lemma {:induction false} InsertPermutes(s: seq<Event>, e: Event)
    ensures multiset(Insert(s, e)) == multiset(s) + multiset{e}
  {
    if s != [] && s[|s| - 1].seqNo > e.seqNo {
      InsertPermutes(s[..|s| - 1], e);
      assert s == s[..|s| - 1] + [s[|s| - 1]];
    }
  }

  lemma {:induction false} InsertSorts(s: seq<Event>, e: Event)
    requires SortedBySeq(s)
    ensures SortedBySeq(Insert(s, e))
  {
    if s != [] && s[|s| - 1].seqNo > e.seqNo {
      var front, last := s[..|s| - 1], s[|s| - 1];
      InsertSorts(front, e);
      InsertPermutes(front, e);
      forall i | 0 <= i < |Insert(front, e)| ensures Insert(front, e)[i].seqNo <= last.seqNo {
        var x := Insert(front, e)[i];
        assert x in multiset(Insert(front, e));
        assert x == e || x in front;
      }
    }
  }

  lemma {:induction false} InsertIsStable(s: seq<Event>, e: Event, n: int)
    ensures Filter(Insert(s, e), HasSeq(n)) == Filter(s, HasSeq(n)) + if e.seqNo == n then [e] else []
  {
    if s == [] {
      FilterOne(e, HasSeq(n));
    } else {
      var front, last := s[..|s| - 1], s[|s| - 1];
      if last.seqNo <= e.seqNo {
        FilterExtend(s, e, HasSeq(n));
      } else {
        InsertIsStable(front, e, n);
        FilterExtend(Insert(front, e), last, HasSeq(n));
      }
    }
  }

  lemma {:induction false} StableSortPermutes(s: seq<Event>)
    ensures multiset(StableSort(s)) == multiset(s)
  {
    if s == [] {
    } else {
      var front, last := s[..|s| - 1], s[|s| - 1];
      var sorted := StableSort(front);
      StableSortPermutes(front);
      InsertPermutes(sorted, last);
      MultisetOfLast(s);
    }
  }

  lemma {:induction false} StableSortOrders(s: seq<Event>)
    ensures SortedBySeq(StableSort(s))
  {
    if s == [] {
    } else {
      StableSortOrders(s[..|s| - 1]);
      InsertSorts(StableSort(s[..|s| - 1]), s[|s| - 1]);
    }
  }

  lemma {:induction false} StableSortIsStable(s: seq<Event>, n: int)
    ensures Filter(StableSort(s), HasSeq(n)) == Filter(s, HasSeq(n))
  {
    if s == [] {
    } else {
      StableSortIsStable(s[..|s| - 1], n);
      InsertIsStable(StableSort(s[..|s| - 1]), s[|s| - 1], n);
    }
  }

  /** The sort permutes, orders, and keeps the order of events with equal numbers. */
  lemma StableSortSorts(s: seq<Event>)
    ensures SortedBySeq(StableSort(s)) && multiset(StableSort(s)) == multiset(s)
    ensures forall n :: Filter(StableSort(s), HasSeq(n)) == Filter(s, HasSeq(n))
  {
    StableSortPermutes(s);
    StableSortOrders(s);
    forall n ensures Filter(StableSort(s), HasSeq(n)) == Filter(s, HasSeq(n)) {
      StableSortIsStable(s, n);
    }
  }

  lemma SortedMembers(s: seq<Event>)
    ensures forall e :: e in StableSort(s) <==> e in s
  {
    StableSortSorts(s);
    forall e ensures e in StableSort(s) <==> e in s {
      assert e in multiset(StableSort(s)) <==> e in multiset(s);
    }
  }

  lemma LastOfFilter(s: seq<Event>, n: int)
    requires s != [] && s[|s| - 1].seqNo == n
    ensures Filter(s, HasSeq(n)) == Filter(s[..|s| - 1], HasSeq(n)) + [s[|s| - 1]]
  {
  }

  lemma SortedLastIsMaximal(a: seq<Event>, b: seq<Event>)
    requires SortedBySeq(b) && a != []
    requires forall n :: Filter(a, HasSeq(n)) == Filter(b, HasSeq(n))
    ensures b != [] && a[|a| - 1].seqNo <= b[|b| - 1].seqNo
  {
    var x := a[|a| - 1];
    assert x in Filter(a, HasSeq(x.seqNo));
    assert x in Filter(b, HasSeq(x.seqNo));
    assert x in b;
  }

  lemma EqualLasts<T>(a: seq<T>, x: T, b: seq<T>, y: T)
    requires a + [x] == b + [y]
    ensures a == b && x == y
  {
    assert |a| == |b| && (a + [x])[|a|] == x && (b + [y])[|b|] == y;
    assert (a + [x])[..|a|] == a && (b + [y])[..|b|] == b;
  }

  lemma SameFrontAndLast<T>(a: seq<T>, b: seq<T>)
    requires a != [] && b != [] && a[..|a| - 1] == b[..|b| - 1] && a[|a| - 1] == b[|b| - 1]
    ensures a == b
  {
    assert a == a[..|a| - 1] + [a[|a| - 1]] && b == b[..|b| - 1] + [b[|b| - 1]];
  }

  /** Sequences that agree on every number and end with the same one end with the same event. */
  lemma FrontsAgree(a: seq<Event>, b: seq<Event>)
    requires a != [] && b != [] && a[|a| - 1].seqNo == b[|b| - 1].seqNo
    requires forall n :: Filter(a, HasSeq(n)) == Filter(b, HasSeq(n))
    ensures a[|a| - 1] == b[|b| - 1]
    ensures forall n :: Filter(a[..|a| - 1], HasSeq(n)) == Filter(b[..|b| - 1], HasSeq(n))
  {
    var x, y := a[|a| - 1], b[|b| - 1];
    LastOfFilter(a, x.seqNo);
    LastOfFilter(b, x.seqNo);
    EqualLasts(Filter(a[..|a| - 1], HasSeq(x.seqNo)), x, Filter(b[..|b| - 1], HasSeq(x.seqNo)), y);
    forall n ensures Filter(a[..|a| - 1], HasSeq(n)) == Filter(b[..|b| - 1], HasSeq(n)) {
      if n != x.seqNo {
        OtherNumbers(a, n);
        OtherNumbers(b, n);
      }
    }
  }

  lemma OtherNumbers(s: seq<Event>, n: int)
    requires s != [] && s[|s| - 1].seqNo != n
    ensures Filter(s, HasSeq(n)) == Filter(s[..|s| - 1], HasSeq(n))
  {
  }

  /** Order and stability determine the sorted sequence. */
  lemma {:induction false} StableOrderIsUnique(a: seq<Event>, b: seq<Event>)
    requires SortedBySeq(a) && SortedBySeq(b)
    requires forall n :: Filter(a, HasSeq(n)) == Filter(b, HasSeq(n))
    ensures a == b
    decreases |a|
  {
    if a == [] {
      if b != [] {
        SortedLastIsMaximal(b, a);
      }
    } else {
      SortedLastIsMaximal(a, b);
      SortedLastIsMaximal(b, a);
      FrontsAgree(a, b);
      StableOrderIsUnique(a[..|a| - 1], b[..|b| - 1]);
      SameFrontAndLast(a, b);
    }
  }

  lemma SortIsIdentityOnSorted(s: seq<Event>)
    requires SortedBySeq(s)
    ensures StableSort(s) == s
  {
    StableSortSorts(s);
    StableOrderIsUnique(StableSort(s), s);
  }

  // ---------------------------------------------------------------------------
  // The abstract outbox
  // ---------------------------------------------------------------------------

  /** Per task: the pending events in store order, and how many events were ever stored. */
  datatype Box = Box(pending: map<string, seq<Event>>, stored: map<string, nat>)

  const EMPTY: Box := Box(map[], map[])

  function PendingOf(b: Box, task: string): seq<Event> {
    if task in b.pending then b.pending[task] else []
  }

  function NextSeq(b: Box, task: string): nat {
    if task in b.stored then b.stored[task] else 0
  }

  /** Tasks without pending events have no entry. */
  ghost predicate Canonical(b: Box) {
    forall t :: t in b.pending ==> b.pending[t] != []
  }

  function HasOtherId(id: string): Event -> bool {
    (e: Event) => e.id != id
  }

  function WithPending(b: Box, task: string, events: seq<Event>): Box {
    b.(pending := if events == [] then b.pending - {task} else b.pending[task := events])
  }

  function StoreIn(b: Box, task: string, e: Event): Box {
    Box(b.pending[task := PendingOf(b, task) + [e]], b.stored[task := NextSeq(b, task) + 1])
  }

  function AckIn(b: Box, task: string, id: string): (Box, bool) {
    var kept := Filter(PendingOf(b, task), HasOtherId(id));
    (WithPending(b, task, kept), |kept| < |PendingOf(b, task)|)
  }

  function CleanIn(b: Box, task: string): Box {
    Box(b.pending - {task}, b.stored - {task})
  }

  function StoreOutcome(b: Box, task: string, e: Event): (Box, Option<OutboxError>) {
    if Strip(task) == "" then (b, Some(TaskIdRequired))
    else if !SchemaValid(e) then (b, Some(InvalidEvent))
    else (StoreIn(b, Strip(task), e), None)
  }

  function Acknowledge(b: Box, task: string, id: string): (Box, bool) {
    if Strip(task) == "" || Strip(id) == "" then (b, false) else AckIn(b, Strip(task), Strip(id))
  }

  function GetPending(b: Box, task: string): seq<Event> {
    if Strip(task) == "" then [] else StableSort(PendingOf(b, Strip(task)))
  }

  function GetNextSequence(b: Box, task: string): nat {
    if Strip(task) == "" then 0 else NextSeq(b, Strip(task))
  }

  function Cleanup(b: Box, task: string): Box {
    if Strip(task) == "" then b else CleanIn(b, Strip(task))
  }

  const HEX_DIGITS: string := "0123456789abcdef"

  lemma HexDigits(c: char)
    ensures IsHexLower(c) <==> c in HEX_DIGITS
  {
    assert HEX_DIGITS == ['0', '1', '2', '3', '4', '5', '6', '7', '8', '9', 'a', 'b', 'c', 'd', 'e', 'f'];
    if IsHexLower(c) {
      assert c == '0' || c == '1' || c == '2' || c == '3' || c == '4' || c == '5' || c == '6' || c == '7' || c == '8'
          || c == '9' || c == 'a' || c == 'b' || c == 'c' || c == 'd' || c == 'e' || c == 'f';
    }
  }

  /** `evt_` and 32 hex digits. */
  ghost predicate IsUuidId(id: string) {
    exists digits :: id == "evt_" + digits && |digits| == 32 && forall i :: 0 <= i < 32 ==> digits[i] in HEX_DIGITS
  }

  lemma GeneratedIdIff(id: string)
    ensures IsGeneratedId(id) <==> IsUuidId(id)
  {
    forall c: char ensures IsHexLower(c) <==> c in HEX_DIGITS {
      HexDigits(c);
    }
    if IsGeneratedId(id) {
      assert id == id[..4] + id[4..];
      assert id == "evt_" + id[4..];
    }
    if IsUuidId(id) {
      var digits :| id == "evt_" + digits && |digits| == 32 && forall i :: 0 <= i < 32 ==> digits[i] in HEX_DIGITS;
      DigitsAreGenerated(id, digits);
    }
  }

  lemma SchemaIdIff(id: string)
    ensures IsSchemaId(id) <==> IsUuidId(id) || exists core :: IsUuidId(core) && id == core + "\n"
  {
    GeneratedIdIff(id);
    if |id| == 37 && id[36] == '\n' && IsGeneratedId(id[..36]) {
      GeneratedIdIff(id[..36]);
      assert id == id[..36] + "\n";
    }
    if core :| IsUuidId(core) && id == core + "\n" {
      GeneratedIdIff(core);
      assert id[..36] == core && id[36] == '\n';
    }
  }

  /**
   * The store accepts an event if and only if the task is not blank, the id is a generated one or one with a
   * newline behind it, the number is not negative, and the rest of the schema is content.
   */
  lemma StoredIff(b: Box, task: string, e: Event)
    ensures StoreOutcome(b, task, e).1 == None <==>
              && Strip(task) != ""
              && (IsUuidId(e.id) || exists core :: IsUuidId(core) && e.id == core + "\n")
              && e.seqNo >= 0 && e.schemaOk
    ensures StoreOutcome(b, task, e).1 == Some(TaskIdRequired) <==> Strip(task) == ""
    ensures StoreOutcome(b, task, e).1 != None ==> StoreOutcome(b, task, e).0 == b
  {
    SchemaIdIff(e.id);
  }

  /** A cleanup removes what the task has pending and its count, and leaves every other task alone. */
  lemma CleanupIsLocal(b: Box, task: string, t: string)
    ensures var b' := Cleanup(b, task);
            if Strip(task) != "" && t == Strip(task) then PendingOf(b', t) == [] && NextSeq(b', t) == 0
            else PendingOf(b', t) == PendingOf(b, t) && NextSeq(b', t) == NextSeq(b, t)
  {
  }

  /** What is pending for a task that is not blank comes sorted, and events with one number in store order. */
  lemma PendingIsSorted(b: Box, task: string)
    ensures Strip(task) == "" ==> GetPending(b, task) == [] && GetNextSequence(b, task) == 0
    ensures Strip(task) != "" ==>
              var events := GetPending(b, task);
              && SortedBySeq(events) && multiset(events) == multiset(PendingOf(b, Strip(task)))
              && (forall n :: Filter(events, HasSeq(n)) == Filter(PendingOf(b, Strip(task)), HasSeq(n)))
              && GetNextSequence(b, task) == NextSeq(b, Strip(task))
  {
    StableSortSorts(PendingOf(b, Strip(task)));
  }

  /** So do a store and an acknowledgement. */
  lemma OthersAreLeftAlone(b: Box, task: string, e: Event, id: string, t: string)
    requires t != Strip(task)
    ensures var b' := StoreOutcome(b, task, e).0;
            PendingOf(b', t) == PendingOf(b, t) && NextSeq(b', t) == NextSeq(b, t)
    ensures var b' := Acknowledge(b, task, id).0;
            PendingOf(b', t) == PendingOf(b, t) && NextSeq(b', t) == NextSeq(b, t)
  {
  }

  /** A generated id is unchanged by the strip of the acknowledgement. */
  lemma GeneratedIdIsTrimmed(id: string)
    requires IsGeneratedId(id)
    ensures Strip(id) == id != ""
  {
    assert id[0] == id[..4][0] == 'e';
    assert id[35] in id[4..] by {
      assert id[4..][31] == id[35];
    }
    StripKeeps(id);
  }

  /** Stripping an id that the schema accepts gives a generated one: all it can remove is the newline. */
  lemma SchemaIdStrips(id: string)
    requires IsSchemaId(id)
    ensures IsGeneratedId(Strip(id)) && Strip(id) != ""
    ensures Strip(id) == id <==> IsGeneratedId(id)
  {
    if IsGeneratedId(id) {
      GeneratedIdIsTrimmed(id);
    } else {
      var core := id[..36];
      GeneratedIdIsTrimmed(core);
      StripTrims(core);
      StripAround("", core, "\n");
      assert "" + core + "\n" == id;
    }
  }

  /** An acknowledgement by its own id takes a pending event out if and only if stripping leaves the id alone. */
  lemma AckRemovesIff(b: Box, task: string, e: Event)
    requires SchemaValid(e) && Strip(task) != "" && e in PendingOf(b, Strip(task))
    ensures e !in PendingOf(Acknowledge(b, task, e.id).0, Strip(task)) <==> Strip(e.id) == e.id
  {
    SchemaIdStrips(e.id);
  }

  const GENERATED_ID: string := "evt_" + seq(32, _ => '0')
  const OTHER_ID: string := "evt_" + seq(32, _ => '1')
  const NEWLINE_ID: string := GENERATED_ID + "\n"

  lemma DigitsAreGenerated(id: string, digits: string)
    requires id == "evt_" + digits && |digits| == 32 && forall c :: c in digits ==> IsHexLower(c)
    ensures IsGeneratedId(id)
  {
    assert id[..4] == "evt_" && id[4..] == digits;
  }

  lemma TwoGeneratedIds()
    ensures IsGeneratedId(GENERATED_ID) && IsGeneratedId(OTHER_ID) && GENERATED_ID != OTHER_ID
  {
    DigitsAreGenerated(GENERATED_ID, seq(32, _ => '0'));
    DigitsAreGenerated(OTHER_ID, seq(32, _ => '1'));
    assert GENERATED_ID[4] == '0' && OTHER_ID[4] == '1';
  }

  lemma NewlineIdIsAccepted()
    ensures IsSchemaId(NEWLINE_ID) && Strip(NEWLINE_ID) != NEWLINE_ID
  {
    TwoGeneratedIds();
    assert NEWLINE_ID[..36] == GENERATED_ID;
    SchemaIdStrips(NEWLINE_ID);
    assert !IsGeneratedId(NEWLINE_ID);
  }

  /** An event that the store accepts, and that stays pending when it is acknowledged by its id. */
  lemma NewlineIdStaysPending(b: Box) returns (e: Event)
    ensures e == Event(NEWLINE_ID, 0, "", true) && StoreOutcome(b, "t", e).1 == None
    ensures e in PendingOf(Acknowledge(StoreOutcome(b, "t", e).0, "t", e.id).0, "t")
  {
    e := Event(NEWLINE_ID, 0, "", true);
    NewlineIdIsAccepted();
    StripKeeps("t");
    var stored := StoreOutcome(b, "t", e).0;
    assert PendingOf(stored, "t") == PendingOf(b, "t") + [e];
    assert e in PendingOf(stored, "t");
    AckRemovesIff(stored, "t", e);
  }

  /**
   * Storing makes the event pending, last; acknowledging it takes it out again, and nothing else, exactly
   * if stripping leaves its id alone.
   */
  lemma StoreThenAck(b: Box, task: string, e: Event)
    requires Canonical(b) && SchemaValid(e) && Strip(task) != ""
    requires forall x :: x in PendingOf(b, Strip(task)) ==> x.id != e.id
    ensures var stored := StoreOutcome(b, task, e).0;
            && PendingOf(stored, Strip(task)) == PendingOf(b, Strip(task)) + [e]
            && (Acknowledge(stored, task, e.id) == (Box(b.pending, stored.stored), true) <==> Strip(e.id) == e.id)
  {
    var t, stored := Strip(task), StoreOutcome(b, task, e).0;
    SchemaIdStrips(e.id);
    assert PendingOf(stored, t) == PendingOf(b, t) + [e];
    AckRemovesIff(stored, task, e);
    if Strip(e.id) == e.id {
      StoreUndone(b, t, e);
    } else {
      assert e in PendingOf(stored, t) && e !in PendingOf(b, t);
    }
  }

  lemma StoreUndone(b: Box, t: string, e: Event)
    requires Canonical(b) && forall x :: x in PendingOf(b, t) ==> x.id != e.id
    ensures AckIn(StoreIn(b, t, e), t, e.id) == (Box(b.pending, StoreIn(b, t, e).stored), true)
  {
    FilterExtend(PendingOf(b, t), e, HasOtherId(e.id));
    FilterAll(PendingOf(b, t), HasOtherId(e.id));
    assert AckIn(StoreIn(b, t, e), t, e.id).0.pending == b.pending;
  }

  lemma AckTwice(b: Box, task: string, id: string)
    ensures Acknowledge(Acknowledge(b, task, id).0, task, id).1 == false
  {
    var t, i := Strip(task), Strip(id);
    FilterTwice(PendingOf(b, t), HasOtherId(i), HasOtherId(i), HasOtherId(i));
  }

  // ---------------------------------------------------------------------------
  // Sequence continuity with one publisher per task
  // ---------------------------------------------------------------------------

  /**
   * `history` is every event stored for the task since it was last cleaned up: the n-th carries number
   * n, and the pending ones are some of them in that order.
   */
  ghost predicate Continuous(b: Box, task: string, history: seq<Event>) {
    var pending := PendingOf(b, task);
    && NextSeq(b, task) == |history|
    && (forall i :: 0 <= i < |history| ==> history[i].seqNo == i)
    && (forall e :: e in pending ==> 0 <= e.seqNo < |history| && history[e.seqNo] == e)
    && (forall i, j :: 0 <= i < j < |pending| ==> pending[i].seqNo < pending[j].seqNo)
  }

  lemma {:induction false} FilterKeepsStrictOrder(s: seq<Event>, keep: Event -> bool)
    requires forall i, j :: 0 <= i < j < |s| ==> s[i].seqNo < s[j].seqNo
    ensures var r := Filter(s, keep); forall i, j :: 0 <= i < j < |r| ==> r[i].seqNo < r[j].seqNo
  {
    if s == [] {
    } else {
      var front := s[..|s| - 1];
      FilterKeepsStrictOrder(front, keep);
      assert forall x :: x in front ==> x.seqNo < s[|s| - 1].seqNo;
      assert forall x :: x in Filter(front, keep) ==> x in front;
    }
  }

  /** A store keeps the numbering continuous exactly when the event carries the next number. */
  lemma StoreIsContinuousIff(b: Box, task: string, history: seq<Event>, e: Event)
    requires Continuous(b, task, history)
    ensures Continuous(StoreIn(b, task, e), task, history + [e]) <==> e.seqNo == NextSeq(b, task)
  {
    var b', h' := StoreIn(b, task, e), history + [e];
    if e.seqNo == NextSeq(b, task) {
      assert PendingOf(b', task) == PendingOf(b, task) + [e];
    } else {
      assert h'[|history|] == e;
    }
  }

  lemma AckIsContinuous(b: Box, task: string, history: seq<Event>, id: string)
    requires Continuous(b, task, history)
    ensures Continuous(AckIn(b, task, id).0, task, history)
  {
    FilterKeepsStrictOrder(PendingOf(b, task), HasOtherId(id));
    assert PendingOf(AckIn(b, task, id).0, task) == Filter(PendingOf(b, task), HasOtherId(id));
  }

  lemma AcknowledgeIsContinuous(b: Box, task: string, history: seq<Event>, id: string)
    requires Continuous(b, task, history) && Strip(task) == task
    ensures Continuous(Acknowledge(b, task, id).0, task, history)
  {
    if task != "" && Strip(id) != "" {
      AckIsContinuous(b, task, history, Strip(id));
    }
  }

  /** With continuous numbering the sort by sequence number changes nothing. */
  lemma ContinuousNeedsNoSort(b: Box, task: string, history: seq<Event>)
    requires Continuous(b, task, history)
    ensures StableSort(PendingOf(b, task)) == PendingOf(b, task)
  {
    SortIsIdentityOnSorted(PendingOf(b, task));
  }

  /** What a single publisher does to the outbox of one task; the draft gets the next number. */
  datatype PublisherStep =
    | PublishNext(draft: Event)
    | AckStep(id: string)
    | RestartStep
    | CleanupStep

  function DoPublisher(b: Box, task: string, step: PublisherStep): Box {
    match step
    case PublishNext(draft) => StoreOutcome(b, task, draft.(seqNo := GetNextSequence(b, task))).0
    case AckStep(id) => Acknowledge(b, task, id).0
    case RestartStep => b
    case CleanupStep => Cleanup(b, task)
  }

  function RunPublisher(task: string, steps: seq<PublisherStep>): Box {
    if steps == [] then EMPTY
    else DoPublisher(RunPublisher(task, steps[..|steps| - 1]), task, steps[|steps| - 1])
  }

  /** The events accepted since the last cleanup, numbered by their position. */
  function History(steps: seq<PublisherStep>): seq<Event> {
    if steps == [] then []
    else
      var before := History(steps[..|steps| - 1]);
      match steps[|steps| - 1]
      case PublishNext(draft) =>
        var e := draft.(seqNo := |before|);
        if SchemaValid(e) then before + [e] else before
      case AckStep(_) => before
      case RestartStep => before
      case CleanupStep => []
  }

  /**
   * Over any run of accepted and rejected stores, acknowledgements, restarts and cleanups by one
   * publisher, the n-th event stored carries number n.
   */
  lemma {:induction false} PublisherIsContinuous(task: string, steps: seq<PublisherStep>)
    requires Strip(task) != ""
    ensures Continuous(RunPublisher(task, steps), Strip(task), History(steps))
  {
    if steps == [] {
    } else {
      var front, last := steps[..|steps| - 1], steps[|steps| - 1];
      var b, h, t := RunPublisher(task, front), History(front), Strip(task);
      PublisherIsContinuous(task, front);
      match last {
        case PublishNext(draft) =>
          if SchemaValid(draft.(seqNo := |h|)) {
            StoreIsContinuousIff(b, t, h, draft.(seqNo := |h|));
          }
        case AckStep(id) =>
          if Strip(id) != "" {
            AckIsContinuous(b, t, h, Strip(id));
          }
        case RestartStep =>
        case CleanupStep =>
      }
    }
  }
}
