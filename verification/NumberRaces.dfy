/**
 * Publishers of one task that share an outbox: taking the next number and storing the event are two steps,
 * so two publishers can store the same number.
 */
module NumberRaces {
  import opened Sequences
  import opened Text
  import opened Outbox

  /** The outbox, the events stored so far, and the numbers that living publishers have taken and not used. */
  datatype State = State(box: Box, history: seq<Event>, taken: map<nat, nat>)

  const START: State := State(EMPTY, [], map[])

  datatype Step =
    | Take(publisher: nat)
    | Store(publisher: nat, draft: Event)
    | Acked(publisher: nat, id: string)
    | Dies(publisher: nat)

  /**
   * A step that is not possible changes nothing; a store that the schema rejects uses the number up, and a
   * publisher that dies takes its number with it.
   */
  function Do(s: State, task: string, step: Step): State {
    match step
    case Take(p) => if p in s.taken then s else s.(taken := s.taken[p := GetNextSequence(s.box, task)])
    case Store(p, draft) =>
      if p !in s.taken then s
      else
        var e := draft.(seqNo := s.taken[p]);
        var (box, error) := StoreOutcome(s.box, task, e);
        State(box, if error.Some? then s.history else s.history + [e], s.taken - {p})
    case Acked(_, id) => s.(box := Acknowledge(s.box, task, id).0)
    case Dies(p) => s.(taken := s.taken - {p})
  }

  function Run(task: string, steps: seq<Step>): State {
    if steps == [] then START else Do(Run(task, steps[..|steps| - 1]), task, steps[|steps| - 1])
  }

  /** Every number that is taken is the next one. */
  ghost predicate TakenIsNext(s: State, task: string) {
    forall p :: p in s.taken ==> s.taken[p] == NextSeq(s.box, task)
  }

  lemma OnlyTaker(s: State, p: nat)
    requires |s.taken| <= 1 && p in s.taken
    ensures s.taken - {p} == map[]
  {
    assert s.taken.Keys == {p} by {
      SubsetSize({p}, s.taken.Keys);
    }
  }

  /** While at most one publisher has taken a number, the n-th event stored carries number n. */
  lemma StepIsContinuous(s: State, task: string, step: Step)
    requires Strip(task) == task != "" && |s.taken| <= 1
    requires Continuous(s.box, task, s.history) && TakenIsNext(s, task)
    ensures var s' := Do(s, task, step); Continuous(s'.box, task, s'.history) && TakenIsNext(s', task)
  {
    match step
    case Take(p) =>
    case Store(p, draft) =>
      if p in s.taken {
        OnlyTaker(s, p);
        var e := draft.(seqNo := s.taken[p]);
        if SchemaValid(e) {
          StoreIsContinuousIff(s.box, task, s.history, e);
        }
      }
    case Acked(_, id) => AcknowledgeIsContinuous(s.box, task, s.history, id);
    case Dies(_) =>
  }

  /** At no time have more than `k` living publishers taken a number that they have not used. */
  ghost predicate TakenWithin(task: string, steps: seq<Step>, k: nat) {
    forall i :: 0 <= i <= |steps| ==> |Run(task, steps[..i]).taken| <= k
  }

  lemma TakenWithinFront(task: string, steps: seq<Step>, k: nat)
    requires TakenWithin(task, steps, k) && steps != []
    ensures TakenWithin(task, steps[..|steps| - 1], k) && |Run(task, steps[..|steps| - 1]).taken| <= k
  {
    var front := steps[..|steps| - 1];
    forall i | 0 <= i <= |front| ensures |Run(task, front[..i]).taken| <= k {
      assert front[..i] == steps[..i];
    }
    assert front[..|front|] == front;
  }

  lemma {:induction false} RunIsContinuous(task: string, steps: seq<Step>)
    requires Strip(task) == task != "" && TakenWithin(task, steps, 1)
    ensures var s := Run(task, steps); Continuous(s.box, task, s.history) && TakenIsNext(s, task)
  {
    if steps == [] {
    } else {
      var front := steps[..|steps| - 1];
      TakenWithinFront(task, steps, 1);
      RunIsContinuous(task, front);
      StepIsContinuous(Run(task, front), task, steps[|steps| - 1]);
    }
  }

  // ---------------------------------------------------------------------------
  // Two publishers
  // ---------------------------------------------------------------------------

  const FIRST: Event := Event(GENERATED_ID, 0, "", true)
  const SECOND: Event := Event(OTHER_ID, 0, "", true)

  const BOTH: seq<Step> := [Take(0), Take(1), Store(0, FIRST), Store(1, SECOND)]

  lemma RunLast(task: string, i: nat)
    requires i < |BOTH|
    ensures Run(task, BOTH[..i + 1]) == Do(Run(task, BOTH[..i]), task, BOTH[i])
  {
    assert BOTH[..i + 1][..i] == BOTH[..i];
  }

  lemma BothTake()
    ensures Run("t", BOTH[..1]) == State(EMPTY, [], map[0 := 0])
    ensures Run("t", BOTH[..2]) == State(EMPTY, [], map[0 := 0, 1 := 0])
  {
    StripKeeps("t");
    RunLast("t", 0);
    RunLast("t", 1);
  }

  lemma FirstStores()
    ensures Run("t", BOTH[..3]) == State(StoreIn(EMPTY, "t", FIRST), [FIRST], map[1 := 0])
  {
    StripKeeps("t");
    TwoGeneratedIds();
    BothTake();
    RunLast("t", 2);
    assert [] + [FIRST] == [FIRST];
  }

  /** Two publishers take a number before either stores: both store number 0. */
  lemma TwoPublishersShareANumber()
    ensures Run("t", BOTH).history == [FIRST, SECOND] && Run("t", BOTH).taken == map[]
  {
    StripKeeps("t");
    TwoGeneratedIds();
    FirstStores();
    RunLast("t", 3);
    assert BOTH[..4] == BOTH && [FIRST] + [SECOND] == [FIRST, SECOND];
  }

  lemma AtMostTwoTake()
    ensures TakenWithin("t", BOTH, 2)
  {
    BothTake();
    FirstStores();
    TwoPublishersShareANumber();
    assert BOTH[..4] == BOTH;
    forall i | 0 <= i <= |BOTH| ensures |Run("t", BOTH[..i]).taken| <= 2 {
      assert i == 0 || i == 1 || i == 2 || i == 3 || i == 4;
    }
  }

  lemma TakenWithinMore(task: string, steps: seq<Step>, j: nat, k: nat)
    requires TakenWithin(task, steps, j) && j <= k
    ensures TakenWithin(task, steps, k)
  {
    forall i | 0 <= i <= |steps| ensures |Run(task, steps[..i]).taken| <= k {
      assert |Run(task, steps[..i]).taken| <= j;
    }
  }

  /**
   * Every run in which at most `k` living publishers at a time have taken a number and not yet stored keeps
   * the numbers continuous if and only if `k` is at most 1.
   */
  lemma ContinuousIffOnePublisher(k: nat)
    ensures (forall task, steps :: Strip(task) == task != "" && TakenWithin(task, steps, k) ==>
               Continuous(Run(task, steps).box, task, Run(task, steps).history)) <==> k <= 1
  {
    if k <= 1 {
      forall task, steps | Strip(task) == task != "" && TakenWithin(task, steps, k)
        ensures Continuous(Run(task, steps).box, task, Run(task, steps).history)
      {
        TakenWithinMore(task, steps, k, 1);
        RunIsContinuous(task, steps);
      }
    } else {
      TwoPublishersShareANumber();
      AtMostTwoTake();
      TakenWithinMore("t", BOTH, 2, k);
      StripKeeps("t");
      assert Run("t", BOTH).history[1].seqNo == 0;
      assert !Continuous(Run("t", BOTH).box, "t", Run("t", BOTH).history);
    }
  }
}
