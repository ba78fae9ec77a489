/**
 * The lease lock of one task key, memory backend: a shared table from keys to (token, expiry).
 *
 * Clients interleave at the granularity of the table's lock. Clock readings are parameters; the
 * reading of an acquire is taken before the lock, so it may be older than the clock at the step.
 */
module TaskLock {
  import opened Sequences

  type Token = nat

  datatype Lease = Lease(token: Token, expiresAt: real)

  /** The table entry of one key. */
  type Slot = Option<Lease>

  datatype Step =
    | Acquire(token: Token, now: real, lease: real)
    | Renew(token: Token, now: real, lease: real)
    | Release(token: Token)

  function Do(slot: Slot, step: Step): (Slot, bool) {
    match step
    case Acquire(token, now, lease) =>
      if slot.Some? && slot.value.expiresAt > now then (slot, false)
      else (Some(Lease(token, now + lease)), true)
    case Renew(token, now, lease) =>
      if slot.None? || slot.value.token != token then (slot, false)
      else (Some(Lease(token, now + lease)), true)
    case Release(token) =>
      if slot.None? || slot.value.token != token then (slot, false)
      else (None, true)
  }

  /** A step with the clock at the moment its locked section runs. */
  datatype Timed = Timed(at: real, step: Step)

  function Run(slot: Slot, trace: seq<Timed>): Slot
    decreases |trace|
  {
    if trace == [] then slot else Run(Do(slot, trace[0].step).0, trace[1..])
  }

  /**
   * The clock never runs back from `from` to `until`; a renewal reads it under the lock and an acquire
   * no later than that.
   */
  ghost predicate Clocked(trace: seq<Timed>, from: real, until: real) {
    if trace == [] then from <= until
    else
      && from <= trace[0].at
      && (trace[0].step.Renew? ==> trace[0].step.now == trace[0].at)
      && (trace[0].step.Acquire? ==> trace[0].step.now <= trace[0].at)
      && Clocked(trace[1..], trace[0].at, until)
  }

  // ---------------------------------------------------------------------------
  // Exclusivity under punctual renewal
  // ---------------------------------------------------------------------------

  /**
   * `token` renews in time: from its last renewal at `renewed`, every renewal lands less than `lease`
   * after the one before it, the last one less than `lease` before `until`, and it does not release.
   */
  ghost predicate Punctual(trace: seq<Timed>, token: Token, lease: real, renewed: real, until: real) {
    if trace == [] then until < renewed + lease
    else if trace[0].step.token == token then
      && trace[0].step.Renew? && trace[0].step.lease == lease
      && trace[0].at < renewed + lease
      && Punctual(trace[1..], token, lease, trace[0].at, until)
    else Punctual(trace[1..], token, lease, renewed, until)
  }

  /** The last renewal of `token` in the trace. */
  function LastRenewal(trace: seq<Timed>, token: Token, renewed: real): real {
    if trace == [] then renewed
    else LastRenewal(trace[1..], token, if trace[0].step.token == token then trace[0].at else renewed)
  }

  lemma {:induction false} PunctualSteps(trace: seq<Timed>, token: Token, lease: real, renewed: real, from: real,
                                         until: real)
    requires Clocked(trace, from, until) && Punctual(trace, token, lease, renewed, until)
    ensures from < renewed + lease
  {
    if trace == [] {
    } else {
      if trace[0].step.token != token {
        PunctualSteps(trace[1..], token, lease, renewed, trace[0].at, until);
      }
    }
  }

  /**
   * While its holder renews punctually, no other acquire succeeds, and the table shows the holder's
   * lease from its last renewal.
   */
  lemma {:induction false} PunctualHolderKeepsLease(trace: seq<Timed>, token: Token, lease: real, renewed: real,
                                                    from: real, until: real)
    requires Clocked(trace, from, until) && Punctual(trace, token, lease, renewed, until)
    ensures Run(Some(Lease(token, renewed + lease)), trace)
         == Some(Lease(token, LastRenewal(trace, token, renewed) + lease))
    ensures forall i :: 0 <= i < |trace| && trace[i].step.Acquire? ==>
              !Do(Run(Some(Lease(token, renewed + lease)), trace[..i]), trace[i].step).1
  {
    if trace == [] {
    } else {
      var slot, rest := Some(Lease(token, renewed + lease)), trace[1..];
      var head := trace[0];
      var renewed' := if head.step.token == token then head.at else renewed;
      var slot' := Some(Lease(token, renewed' + lease));
      if head.step.token != token {
        PunctualSteps(rest, token, lease, renewed, head.at, until);
      }
      assert Do(slot, head.step).0 == slot';
      PunctualHolderKeepsLease(rest, token, lease, renewed', head.at, until);
      forall i | 0 <= i < |trace| && trace[i].step.Acquire?
        ensures !Do(Run(slot, trace[..i]), trace[i].step).1
      {
        if i > 0 {
          assert trace[..i][1..] == rest[..i - 1] && trace[..i][0] == head;
          assert rest[i - 1] == trace[i];
        } else {
          assert trace[..0] == [];
        }
      }
    }
  }

  // ---------------------------------------------------------------------------
  // Fencing: a token that lost the lease can neither renew, release nor disturb
  // ---------------------------------------------------------------------------

  ghost predicate HeldBy(slot: Slot, token: Token) {
    slot.Some? && slot.value.token == token
  }

  /** Tokens are fresh: `token` is not acquired again. */
  ghost predicate NoAcquireBy(trace: seq<Timed>, token: Token) {
    forall t :: t in trace && t.step.Acquire? ==> t.step.token != token
  }

  function NotBy(token: Token): Timed -> bool {
    (t: Timed) => t.step.token != token
  }

  lemma {:induction false} RunAppend(slot: Slot, a: seq<Timed>, b: seq<Timed>)
    ensures Run(slot, a + b) == Run(Run(slot, a), b)
    decreases |a|
  {
    if a == [] {
      assert a + b == b;
    } else {
      assert (a + b)[1..] == a[1..] + b;
      RunAppend(Do(slot, a[0].step).0, a[1..], b);
    }
  }

  lemma {:induction false} LostStaysLost(slot: Slot, trace: seq<Timed>, token: Token)
    requires !HeldBy(slot, token) && NoAcquireBy(trace, token)
    ensures !HeldBy(Run(slot, trace), token)
    decreases |trace|
  {
    if trace == [] {
    } else {
      LostStaysLost(Do(slot, trace[0].step).0, trace[1..], token);
    }
  }

  /** Once lost, every renewal and release by the old token returns false and changes nothing. */
  lemma LostTokenIsPowerless(slot: Slot, trace: seq<Timed>, token: Token, step: Step)
    requires !HeldBy(slot, token) && NoAcquireBy(trace, token)
    requires !step.Acquire? && step.token == token
    ensures Do(Run(slot, trace), step) == (Run(slot, trace), false)
  {
    LostStaysLost(slot, trace, token);
  }

  /** Erasing all the steps of a token that lost the lease changes no later state. */
  lemma {:induction false} LostTokenDoesNotInterfere(slot: Slot, trace: seq<Timed>, token: Token)
    requires !HeldBy(slot, token) && NoAcquireBy(trace, token)
    ensures Run(slot, trace) == Run(slot, Filter(trace, NotBy(token)))
    decreases |trace|
  {
    if trace == [] {
    } else {
      var head, rest := trace[0], trace[1..];
      var slot' := Do(slot, head.step).0;
      LostTokenDoesNotInterfere(slot', rest, token);
      assert trace == [head] + rest;
      FilterConcat([head], rest, NotBy(token));
      FilterOne(head, NotBy(token));
      if head.step.token == token {
        assert slot' == slot;
        assert [] + Filter(rest, NotBy(token)) == Filter(rest, NotBy(token));
      } else {
        assert ([head] + Filter(rest, NotBy(token)))[1..] == Filter(rest, NotBy(token));
      }
    }
  }

  // ---------------------------------------------------------------------------
  // At most one holder at any time, in every interleaving
  // ---------------------------------------------------------------------------

  /** What each client believes: until when its last successful acquire or renewal protects it. */
  function Beliefs(slot: Slot, trace: seq<Timed>): map<Token, real> {
    if trace == [] then map[]
    else
      var front, last := trace[..|trace| - 1], trace[|trace| - 1].step;
      var before := Beliefs(slot, front);
      if !Do(Run(slot, front), last).1 then before
      else if last.Release? then before - {last.token}
      else before[last.token := last.now + last.lease]
  }

  lemma RunSnoc(slot: Slot, trace: seq<Timed>)
    requires trace != []
    ensures Run(slot, trace) == Do(Run(slot, trace[..|trace| - 1]), trace[|trace| - 1].step).0
  {
    var front, last := trace[..|trace| - 1], trace[|trace| - 1];
    assert trace == front + [last];
    RunAppend(slot, front, [last]);
    assert Run(Run(slot, front), [last]) == Run(Do(Run(slot, front), last.step).0, [last][1..]);
  }

  /** `now` is at or after every clock reading in the trace. */
  ghost predicate After(trace: seq<Timed>, now: real) {
    forall t :: t in trace ==> t.at <= now
  }

  ghost predicate ReadsClock(trace: seq<Timed>) {
    forall i :: 0 <= i < |trace| ==>
      && (forall j :: 0 <= j < i ==> trace[j].at <= trace[i].at)
      && (!trace[i].step.Release? ==> trace[i].step.now <= trace[i].at)
  }

  /**
   * A client whose protection has not run out is the one in the table, with that very expiry; so at
   * no time do two clients believe, within their leases, that they hold the key.
   */
  lemma {:induction false} UnexpiredBeliefIsTrue(trace: seq<Timed>, token: Token, now: real)
    requires ReadsClock(trace) && After(trace, now)
    requires token in Beliefs(None, trace) && now < Beliefs(None, trace)[token]
    ensures Run(None, trace) == Some(Lease(token, Beliefs(None, trace)[token]))
  {
    var front, last := trace[..|trace| - 1], trace[|trace| - 1];
    RunSnoc(None, trace);
    assert forall t :: t in front ==> t in trace;
    assert last in trace;
    if !(Do(Run(None, front), last.step).1 && !last.step.Release? && last.step.token == token) {
      UnexpiredBeliefIsTrue(front, token, now);
    }
  }

  lemma AtMostOneHolder(trace: seq<Timed>, a: Token, b: Token, now: real)
    requires ReadsClock(trace) && After(trace, now)
    requires a in Beliefs(None, trace) && now < Beliefs(None, trace)[a]
    requires b in Beliefs(None, trace) && now < Beliefs(None, trace)[b]
    ensures a == b
  {
    UnexpiredBeliefIsTrue(trace, a, now);
    UnexpiredBeliefIsTrue(trace, b, now);
  }

  // ---------------------------------------------------------------------------
  // A lease that has run out, or was given back, can be acquired
  // ---------------------------------------------------------------------------

  /** The key is free at `now`: nobody has the lease, or it ran out at or before `now`. */
  ghost predicate FreeAt(slot: Slot, now: real) {
    slot == None || slot.value.expiresAt <= now
  }

  /** An acquire succeeds exactly when the key is free, and then the lease is the token's, for its full length. */
  lemma AcquiredIff(slot: Slot, token: Token, now: real, lease: real)
    ensures Do(slot, Acquire(token, now, lease)).1 <==> FreeAt(slot, now)
    ensures Do(slot, Acquire(token, now, lease)).0
         == if FreeAt(slot, now) then Some(Lease(token, now + lease)) else slot
  {
  }

  /** No step is the token's own, and no acquire reads the clock at the expiry or later. */
  ghost predicate LeavesAlone(trace: seq<Timed>, token: Token, expiresAt: real) {
    forall t :: t in trace ==> t.step.token != token && (t.step.Acquire? ==> t.step.now < expiresAt)
  }

  /** Until its expiry the holder's lease stays what it was, whatever the others do. */
  lemma {:induction false} AbandonedLeaseStays(trace: seq<Timed>, token: Token, expiresAt: real)
    requires LeavesAlone(trace, token, expiresAt)
    ensures Run(Some(Lease(token, expiresAt)), trace) == Some(Lease(token, expiresAt))
  {
    if trace == [] {
    } else {
      assert trace[0] in trace;
      AbandonedLeaseStays(trace[1..], token, expiresAt);
    }
  }

  /**
   * A holder that renewed last at `renewed` and then takes no further step, as after a crash: the first
   * acquire that reads the clock at `renewed + lease` or later gets the key, and none before it does.
   */
  lemma AbandonedLeaseIsAcquired(trace: seq<Timed>, token: Token, lease: real, renewed: real, other: Token, now: real,
                                 length: real)
    requires LeavesAlone(trace, token, renewed + lease)
    ensures var slot := Run(Some(Lease(token, renewed + lease)), trace);
            && (Do(slot, Acquire(other, now, length)).1 <==> now >= renewed + lease)
            && (now >= renewed + lease ==>
                  Do(slot, Acquire(other, now, length)).0 == Some(Lease(other, now + length)))
  {
    AbandonedLeaseStays(trace, token, renewed + lease);
  }

  /** Steps of other tokens that acquire nothing, after a release. */
  ghost predicate NoAcquires(trace: seq<Timed>) {
    forall t :: t in trace ==> !t.step.Acquire?
  }

  lemma {:induction false} FreeStaysFree(trace: seq<Timed>)
    requires NoAcquires(trace)
    ensures Run(None, trace) == None
  {
    if trace == [] {
    } else {
      assert trace[0] in trace;
      FreeStaysFree(trace[1..]);
    }
  }

  /** The holder's release returns True, and the next acquire succeeds, whatever the clock reads. */
  lemma ReleasedLeaseIsAcquired(token: Token, expiresAt: real, trace: seq<Timed>, other: Token, now: real, length: real)
    requires NoAcquires(trace)
    ensures Do(Some(Lease(token, expiresAt)), Release(token)) == (None, true)
    ensures Do(Run(None, trace), Acquire(other, now, length)) == (Some(Lease(other, now + length)), true)
  {
    FreeStaysFree(trace);
  }

  /** The holder's renewal returns True, and sets the expiry to a full lease from its reading. */
  lemma HolderRenews(token: Token, expiresAt: real, now: real, lease: real)
    ensures Do(Some(Lease(token, expiresAt)), Renew(token, now, lease)) == (Some(Lease(token, now + lease)), true)
  {
  }

  /**
   * A holder that renews in time can renew and release at the end of the trace as well: both return True.
   */
  lemma PunctualHolderSucceeds(trace: seq<Timed>, token: Token, lease: real, renewed: real, from: real, until: real,
                               now: real)
    requires Clocked(trace, from, until) && Punctual(trace, token, lease, renewed, until)
    ensures var slot := Run(Some(Lease(token, renewed + lease)), trace);
            && Do(slot, Renew(token, now, lease)) == (Some(Lease(token, now + lease)), true)
            && Do(slot, Release(token)) == (None, true)
  {
    PunctualHolderKeepsLease(trace, token, lease, renewed, from, until);
  }

  // ---------------------------------------------------------------------------
  // The constructor clamps
  // ---------------------------------------------------------------------------

  function LeaseSeconds(requested: int): (r: int)
    ensures r >= 5 && r >= requested
  {
    if requested < 5 then 5 else requested
  }

  function RenewInterval(requested: int, lease: int): int {
    var capped := if requested < lease - 1 then requested else lease - 1;
    if capped < 2 then 2 else capped
  }

  /** The renewal interval leaves at least one second before the lease runs out. */
  lemma RenewalHasSlack(lease: int, interval: int)
    ensures 2 <= RenewInterval(interval, LeaseSeconds(lease)) <= LeaseSeconds(lease) - 1
    ensures lease >= 5 ==> LeaseSeconds(lease) == lease
    ensures 2 <= interval < LeaseSeconds(lease) ==> RenewInterval(interval, LeaseSeconds(lease)) == interval
    ensures interval < 2 ==> RenewInterval(interval, LeaseSeconds(lease)) == 2
    ensures interval >= LeaseSeconds(lease) ==>
              RenewInterval(interval, LeaseSeconds(lease)) == LeaseSeconds(lease) - 1
  {
  }

  /** Renewals of `token` that follow each other, and the end of the trace, within `gap`. */
  ghost predicate RenewedWithin(trace: seq<Timed>, token: Token, lease: real, gap: real, renewed: real, until: real) {
    if trace == [] then until <= renewed + gap
    else if trace[0].step.token == token then
      && trace[0].step.Renew? && trace[0].step.lease == lease
      && trace[0].at <= renewed + gap
      && RenewedWithin(trace[1..], token, lease, gap, trace[0].at, until)
    else RenewedWithin(trace[1..], token, lease, gap, renewed, until)
  }

  /** With the clamped interval, renewals that are late by less than a second are punctual. */
  lemma {:induction false} ClampedRenewalsArePunctual(trace: seq<Timed>, token: Token, lease: int, interval: int,
                                                      delay: real,
                                                      renewed: real, until: real)
    requires delay < 1.0
    requires var l := LeaseSeconds(lease);
             RenewedWithin(trace, token, l as real, RenewInterval(interval, l) as real + delay, renewed, until)
    ensures Punctual(trace, token, LeaseSeconds(lease) as real, renewed, until)
  {
    RenewalHasSlack(lease, interval);
    if trace == [] {
    } else {
      var renewed' := if trace[0].step.token == token then trace[0].at else renewed;
      ClampedRenewalsArePunctual(trace[1..], token, lease, interval, delay, renewed', until);
    }
  }

  // ---------------------------------------------------------------------------
  // The table and the lease objects
  // ---------------------------------------------------------------------------

  class LeaseTable {
    var leases: map<string, Lease>

    constructor ()
      ensures leases == map[]
    {
      leases := map[];
    }

    function SlotOf(key: string): Slot
      reads this
    {
      if key in leases then Some(leases[key]) else None
    }

    /** The step is taken on `key`; every other key is left alone. */
    ghost predicate Stepped(before: map<string, Lease>, key: string, slot: Slot)
      reads this
    {
      leases == if slot.Some? then before[key := slot.value] else before - {key}
    }

    method AcquireLocal(key: string, token: Token, now: real, leaseSeconds: real) returns (acquired: bool)
      modifies this
      ensures (SlotOf(key), acquired) == Do(old(SlotOf(key)), Acquire(token, now, leaseSeconds))
      ensures acquired <==> key !in old(leases) || old(leases)[key].expiresAt <= now
      ensures leases == if acquired then old(leases)[key := Lease(token, now + leaseSeconds)] else old(leases)
      ensures Stepped(old(leases), key, SlotOf(key))
    {
      var expiresAt := now + leaseSeconds;
      if key in leases && leases[key].expiresAt > now {
        return false;
      }
      leases := leases[key := Lease(token, expiresAt)];
      return true;
    }

    method RenewLocal(key: string, token: Token, now: real, leaseSeconds: real) returns (renewed: bool)
      modifies this
      ensures (SlotOf(key), renewed) == Do(old(SlotOf(key)), Renew(token, now, leaseSeconds))
      ensures renewed <==> key in old(leases) && old(leases)[key].token == token
      ensures leases == if renewed then old(leases)[key := Lease(token, now + leaseSeconds)] else old(leases)
      ensures Stepped(old(leases), key, SlotOf(key))
    {
      if key !in leases || leases[key].token != token {
        return false;
      }
      leases := leases[key := Lease(token, now + leaseSeconds)];
      return true;
    }

    method ReleaseLocal(key: string, token: Token) returns (released: bool)
      modifies this
      ensures (SlotOf(key), released) == Do(old(SlotOf(key)), Release(token))
      ensures released <==> key in old(leases) && old(leases)[key].token == token
      ensures leases == if released then old(leases) - {key} else old(leases)
      ensures Stepped(old(leases), key, SlotOf(key))
    {
      if key !in leases || leases[key].token != token {
        return false;
      }
      leases := leases - {key};
      return true;
    }
  }

  class TaskLease {
    const table: LeaseTable
    const key: string
    const token: Token
    var acquired: bool

    constructor (table: LeaseTable, key: string, token: Token, acquired: bool)
      ensures this.table == table && this.key == key && this.token == token && this.acquired == acquired
    {
      this.table, this.key, this.token, this.acquired := table, key, token, acquired;
    }

    /** The first release of an acquired lease gives the key back if it is still held; others do nothing. */
    method ReleaseLease()
      modifies this, table
      ensures !acquired
      ensures old(acquired) ==>
        && table.SlotOf(key) == Do(old(table.SlotOf(key)), Release(token)).0
        && table.Stepped(old(table.leases), key, table.SlotOf(key))
      ensures table.leases == if old(acquired) && key in old(table.leases) && old(table.leases)[key].token == token
                              then old(table.leases) - {key} else old(table.leases)
    {
      if acquired {
        var released := table.ReleaseLocal(key, token);
        acquired := false;
      }
    }
  }
}
