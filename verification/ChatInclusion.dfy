/**
 * Two caches of different capacity under the same chats. A chat stores only after a miss, so the two
 * caches do not see the same operations: the smaller one renews an entry when the larger one still
 * holds it.
 *
 * The chats are those of any number of clients, and their lookups and stores interleave.
 */
module ChatInclusion {
  import opened Sequences
  import opened ResponseCache
  import opened LlmClient

  /** What a cache of capacity `cap` and its clients have come to. */
  function After(moves: seq<Move>, answer: Answerer, cap: nat, ttl: real): Traffic {
    RunMoves(moves, Settings(true, cap, ttl), answer)
  }

  function Step(s: Traffic, move: Move, answer: Answerer, cap: nat, ttl: real): Traffic {
    DoMove(s, move, Settings(true, cap, ttl), answer)
  }

  // ---------------------------------------------------------------------------
  // Runs: their clock, and what they have in progress
  // ---------------------------------------------------------------------------

  /** The last clock reading once a move has been made. */
  function Read(move: Move, since: real): real {
    match move
    case LookUp(_, _, now) => now
    case Complete(_, _, store) => store
    case Touch(op) => if op.Size? then op.now else since
  }

  /** The last clock reading of a run that began at `start`. */
  function Latest(moves: seq<Move>, start: real): real {
    if moves == [] then start
    else Read(moves[|moves| - 1], Latest(moves[..|moves| - 1], start))
  }

  predicate InOrder(move: Move, since: real) {
    match move
    case LookUp(_, _, now) => since <= now
    case Complete(_, purge, store) => since <= purge <= store
    case Touch(op) => op.Size? ==> since <= op.now
  }

  /** From `start` on the clock never goes back. */
  predicate Clocked(moves: seq<Move>, start: real) {
    moves == [] ||
    (Clocked(moves[..|moves| - 1], start) && InOrder(moves[|moves| - 1], Latest(moves[..|moves| - 1], start)))
  }

  /** A move adds to the chats in progress, or ends one. */
  function Flying(before: multiset<nat>, move: Move): multiset<nat> {
    match move
    case LookUp(client, _, _) => before + multiset{client}
    case Complete(client, _, _) => before - multiset{client}
    case Touch(_) => before
  }

  /**
   * The clients that have looked up and not completed, once for each such chat. A chat that the cache
   * answered ends with a `Complete` too, which does nothing.
   */
  function InFlight(moves: seq<Move>): multiset<nat> {
    if moves == [] then multiset{} else Flying(InFlight(moves[..|moves| - 1]), moves[|moves| - 1])
  }

  /** Discarding a key and clearing the cache are operations of their own. */
  predicate Removes(move: Move) {
    move.Touch? && (move.op.Discard? || move.op.Clear?)
  }

  /** The run never has more than `k` chats, discards and clears in progress at a time. */
  predicate AtOnce(moves: seq<Move>, k: nat) {
    moves == [] ||
    (AtOnce(moves[..|moves| - 1], k) && |InFlight(moves)| + (if Removes(moves[|moves| - 1]) then 1 else 0) <= k)
  }

  /** A run from `start` on that is over within `d` and has at most `k` operations in progress at a time. */
  predicate Admitted(moves: seq<Move>, start: real, d: real, k: nat) {
    Clocked(moves, start) && Latest(moves, start) <= start + d && AtOnce(moves, k)
  }

  /** If the small cache has what a chat looks up, so does the large one, and it is the provider's answer. */
  ghost predicate KeepsHit(small: Traffic, large: Traffic, move: Move, answer: Answerer) {
    move.LookUp? && move.client !in small.asking && GetHit(small.entries, move.key, move.now).Some? ==>
      var hit := GetHit(large.entries, move.key, move.now);
      && hit.Some? && answer(move.key) == Success(hit.value.value)
      && hit.value.value == GetHit(small.entries, move.key, move.now).value.value
  }

  /** Every hit of a cache of capacity `m` during the run is one of the cache of capacity `n` as well. */
  ghost predicate KeepsEveryHit(moves: seq<Move>, answer: Answerer, m: nat, n: nat, ttl: real) {
    moves == [] ||
    var front := moves[..|moves| - 1];
    && KeepsEveryHit(front, answer, m, n, ttl)
    && KeepsHit(After(front, answer, m, ttl), After(front, answer, n, ttl), moves[|moves| - 1], answer)
  }

  // ---------------------------------------------------------------------------
  // While nothing expires
  // ---------------------------------------------------------------------------

  predicate AllLive(s: Entries, now: real) {
    forall e :: e in s ==> e.expiresAt > now
  }

  /** While nothing expires, a lookup purges nothing. */
  lemma LiveLookup(s: Entries, key: Key, now: real)
    requires AllLive(s, now)
    ensures GetHit(s, key, now) == Lookup(s, key)
    ensures AfterGet(s, key, now) == match Lookup(s, key) case Some(e) => PutLast(s, e) case None => s
  {
    FilterAll(s, IsLive(now));
  }

  lemma LiveStore(s: Entries, key: Key, value: string, purge: real, store: real, cap: nat, ttl: real)
    requires AllLive(s, purge)
    ensures AfterPut(s, key, value, purge, store, cap, ttl) == Trim(PutLast(s, Entry(key, value, store + ttl)), cap)
  {
    FilterAll(s, IsLive(purge));
  }

  lemma LookupFinds(s: Entries, e: Entry)
    requires Distinct(s) && e in s
    ensures Lookup(s, e.key) == Some(e)
  {
    var found := Lookup(s, e.key);
    assert e.key in Keys(s);
    DistinctUnique(s, found.value, e);
  }

  /** None of the entries expires before the move is done with them. */
  predicate StaysLive(s: Entries, move: Move) {
    match move
    case LookUp(_, _, now) => AllLive(s, now)
    case Complete(_, purge, _) => AllLive(s, purge)
    case Touch(op) => op.Size? ==> AllLive(s, op.now)
  }

  /** During the run nothing expires in the cache of capacity `cap`. */
  ghost predicate NothingExpires(moves: seq<Move>, answer: Answerer, cap: nat, ttl: real) {
    moves == [] ||
    var front := moves[..|moves| - 1];
    NothingExpires(front, answer, cap, ttl) && StaysLive(After(front, answer, cap, ttl).entries, moves[|moves| - 1])
  }

  // ---------------------------------------------------------------------------
  // The keys of the two caches and their order
  // ---------------------------------------------------------------------------

  /** The keys alone, in their order. */
  function Bare(s: Entries): Entries {
    seq(|s|, i requires 0 <= i < |s| => Entry(s[i].key, "", 0.0))
  }

  lemma BareMember(s: Entries, i: nat)
    requires i < |s|
    ensures Entry(s[i].key, "", 0.0) in Bare(s)
  {
    assert Bare(s)[i] == Entry(s[i].key, "", 0.0);
  }

  lemma BareKeys(s: Entries)
    ensures Keys(Bare(s)) == Keys(s)
    ensures forall e :: e in s ==> Entry(e.key, "", 0.0) in Bare(s)
  {
    forall e | e in s ensures Entry(e.key, "", 0.0) in Bare(s) {
      var i :| 0 <= i < |s| && s[i] == e;
      BareMember(s, i);
    }
    forall b | b in Bare(s) ensures b.key in Keys(s) {
      var i :| 0 <= i < |s| && Bare(s)[i] == b;
      assert s[i] in s;
    }
  }

  lemma {:induction false} BareWithout(s: Entries, key: Key)
    ensures Bare(Without(s, key)) == Without(Bare(s), key)
  {
    if s == [] {
    } else {
      var front := s[..|s| - 1];
      BareWithout(front, key);
      assert Bare(s)[..|s| - 1] == Bare(front);
    }
  }

  lemma BarePut(s: Entries, e: Entry, cap: nat)
    ensures Bare(PutLast(s, e)) == PutLast(Bare(s), Entry(e.key, "", 0.0))
    ensures Bare(Trim(PutLast(s, e), cap)) == Trim(PutLast(Bare(s), Entry(e.key, "", 0.0)), cap)
  {
    BareWithout(s, e.key);
    assert Bare(PutLast(s, e)) == Bare(Without(s, e.key)) + [Entry(e.key, "", 0.0)];
  }

  /** The keys of the small cache are among those of the large one, in the same order. */
  ghost predicate Tracks(small: Entries, large: Entries, m: nat, n: nat) {
    Included(Bare(small), Bare(large), m, n)
  }

  lemma TracksKeys(small: Entries, large: Entries, m: nat, n: nat)
    requires Tracks(small, large, m, n)
    ensures Keys(small) <= Keys(large) && Distinct(small) && Distinct(large)
  {
    WithinDistinct(Bare(small), Bare(large));
    BareKeys(small);
    BareKeys(large);
    BareDistinct(small);
    BareDistinct(large);
  }

  lemma BareDistinct(s: Entries)
    requires Distinct(Bare(s))
    ensures Distinct(s)
  {
    forall i, j | 0 <= i < j < |s| ensures s[i].key != s[j].key {
      assert Bare(s)[i].key != Bare(s)[j].key;
    }
  }

  /** Both caches store. */
  lemma TracksPut(small: Entries, large: Entries, x: Entry, y: Entry, m: nat, n: nat)
    requires 1 <= m <= n && Tracks(small, large, m, n) && x.key == y.key
    ensures Tracks(Trim(PutLast(small, x), m), Trim(PutLast(large, y), n), m, n)
  {
    BarePut(small, x, m);
    BarePut(large, y, n);
    IncludedPut(Bare(small), Bare(large), m, n, Entry(x.key, "", 0.0));
  }

  /** Both caches hit. */
  lemma TracksHit(small: Entries, large: Entries, x: Entry, y: Entry, m: nat, n: nat)
    requires 1 <= m <= n && Tracks(small, large, m, n) && x in small && x.key == y.key
    ensures Tracks(PutLast(small, x), PutLast(large, y), m, n)
  {
    BarePut(small, x, m);
    BarePut(large, y, n);
    BareKeys(small);
    IncludedUse(Bare(small), Bare(large), m, n, Entry(x.key, "", 0.0));
  }

  /** Only the large cache hits. */
  lemma TracksHitLarge(small: Entries, large: Entries, y: Entry, m: nat, n: nat)
    requires 1 <= m <= n && Tracks(small, large, m, n) && y in large && y.key !in Keys(small)
    ensures Tracks(small, PutLast(large, y), m, n)
  {
    BarePut(large, y, n);
    BareKeys(small);
    BareKeys(large);
    IncludedUseLarge(Bare(small), Bare(large), m, n, Entry(y.key, "", 0.0));
  }

  ghost predicate EndsWith(s: Entries, key: Key) {
    s != [] && s[|s| - 1].key == key
  }

  /** Putting the last key last changes no order. */
  lemma LastPutLast(s: Entries, e: Entry)
    requires Distinct(s) && s != [] && s[|s| - 1] == e
    ensures PutLast(s, e) == s
  {
    var front := s[..|s| - 1];
    FilterAll(front, IsNot(e.key));
    assert s == front + [e];
  }

  /** The small cache stores a key that the large one used last. */
  lemma TracksRenewal(small: Entries, large: Entries, x: Entry, m: nat, n: nat)
    requires 1 <= m <= n && Tracks(small, large, m, n) && EndsWith(large, x.key)
    ensures Tracks(Trim(PutLast(small, x), m), large, m, n)
  {
    var e := Entry(x.key, "", 0.0);
    BarePut(small, x, m);
    LastPutLast(Bare(large), e);
    IncludedPut(Bare(small), Bare(large), m, n, e);
  }

  lemma TracksDiscard(small: Entries, large: Entries, key: Key, m: nat, n: nat)
    requires Tracks(small, large, m, n)
    ensures Tracks(Without(small, key), Without(large, key), m, n)
  {
    BareWithout(small, key);
    BareWithout(large, key);
    WithinFilter(Bare(small), Bare(large), IsNot(key));
  }

  // ---------------------------------------------------------------------------
  // The expiries of the two caches
  // ---------------------------------------------------------------------------

  /** What the large cache holds under a key of the small one expires no later. */
  ghost predicate NoLater(large: Entries, small: Entries) {
    forall x, y :: x in small && y in large && x.key == y.key ==> y.expiresAt <= x.expiresAt
  }

  ghost predicate Until(s: Entries, latest: real) {
    forall e :: e in s ==> e.expiresAt <= latest
  }

  lemma PutMember(s: Entries, e: Entry, cap: nat)
    ensures forall x :: x in Trim(PutLast(s, e), cap) ==> x == e || (x in s && x.key != e.key)
    ensures forall x :: x in PutLast(s, e) ==> x == e || (x in s && x.key != e.key)
  {
    forall x | x in Trim(PutLast(s, e), cap) ensures x in PutLast(s, e) {
    }
  }

  /** While nothing expires in the large cache, nothing does in the small one. */
  lemma SmallIsLive(small: Entries, large: Entries, m: nat, n: nat, now: real)
    requires Tracks(small, large, m, n) && NoLater(large, small) && AllLive(large, now)
    ensures AllLive(small, now)
  {
    TracksKeys(small, large, m, n);
    forall x | x in small ensures x.expiresAt > now {
      assert x.key in Keys(large);
    }
  }

  // ---------------------------------------------------------------------------
  // One operation at a time
  // ---------------------------------------------------------------------------

  /** Keys and expiries of the two caches after the moves, the last clock reading being `now`. */
  ghost predicate Paired(small: Entries, large: Entries, m: nat, n: nat, until: real) {
    Tracks(small, large, m, n) && NoLater(large, small) && Until(large, until)
  }

  /** Who asks for the large cache asks for the small one; a chat that only the large one answered was its last. */
  ghost predicate SameAsked(small: Traffic, large: Traffic) {
    && (forall c :: c in large.asking ==> c in small.asking && small.asking[c] == large.asking[c])
    && (forall c :: c in small.asking && c !in large.asking ==> EndsWith(large.entries, small.asking[c]))
  }

  ghost predicate AskingOnly(s: Traffic, flying: multiset<nat>) {
    forall c :: c in s.asking ==> c in flying
  }

  ghost predicate InStep(small: Traffic, large: Traffic, flying: multiset<nat>, m: nat, n: nat, until: real) {
    && Paired(small.entries, large.entries, m, n, until)
    && SameAsked(small, large) && AskingOnly(small, flying)
  }

  lemma PairedPut(small: Entries, large: Entries, x: Entry, y: Entry, m: nat, n: nat, until: real, later: real)
    requires 1 <= m <= n && Paired(small, large, m, n, until)
    requires x.key == y.key && y.expiresAt <= x.expiresAt && y.expiresAt <= later && until <= later
    ensures Paired(Trim(PutLast(small, x), m), Trim(PutLast(large, y), n), m, n, later)
  {
    TracksPut(small, large, x, y, m, n);
    PutMember(small, x, m);
    PutMember(large, y, n);
  }

  lemma PairedHit(small: Entries, large: Entries, x: Entry, y: Entry, m: nat, n: nat, until: real)
    requires 1 <= m <= n && Paired(small, large, m, n, until)
    requires x in small && y in large && x.key == y.key
    ensures Paired(PutLast(small, x), PutLast(large, y), m, n, until)
  {
    TracksHit(small, large, x, y, m, n);
    PutMember(small, x, m);
    PutMember(large, y, n);
  }

  lemma PairedHitLarge(small: Entries, large: Entries, y: Entry, m: nat, n: nat, until: real)
    requires 1 <= m <= n && Paired(small, large, m, n, until)
    requires y in large && y.key !in Keys(small)
    ensures Paired(small, PutLast(large, y), m, n, until) && EndsWith(PutLast(large, y), y.key)
  {
    TracksHitLarge(small, large, y, m, n);
    PutMember(large, y, n);
  }

  lemma PairedRenewal(small: Entries, large: Entries, x: Entry, m: nat, n: nat, until: real)
    requires 1 <= m <= n && Paired(small, large, m, n, until)
    requires EndsWith(large, x.key) && until <= x.expiresAt
    ensures Paired(Trim(PutLast(small, x), m), large, m, n, until)
  {
    TracksRenewal(small, large, x, m, n);
    PutMember(small, x, m);
  }

  /** What the two caches find while nothing expires in the large one. */
  lemma FindsAlike(small: Entries, large: Entries, key: Key, m: nat, n: nat, until: real, now: real)
    requires Paired(small, large, m, n, until) && AllLive(large, now)
    ensures GetHit(small, key, now) == Lookup(small, key) && GetHit(large, key, now) == Lookup(large, key)
    ensures Lookup(small, key).Some? ==> Lookup(large, key).Some?
    ensures AfterGet(small, key, now) == match Lookup(small, key) case Some(e) => PutLast(small, e) case None => small
    ensures AfterGet(large, key, now) == match Lookup(large, key) case Some(e) => PutLast(large, e) case None => large
  {
    SmallIsLive(small, large, m, n, now);
    TracksKeys(small, large, m, n);
    LiveLookup(small, key, now);
    LiveLookup(large, key, now);
  }

  /** A lookup while no chat is in progress. */
  lemma LookUpInStep(small: Traffic, large: Traffic, client: nat, key: Key, now: real, m: nat, n: nat, until: real)
    requires 1 <= m <= n && InStep(small, large, multiset{}, m, n, until) && AllLive(large.entries, now)
    ensures InStep(DoLookUp(small, client, key, now), DoLookUp(large, client, key, now), multiset{client}, m, n, until)
  {
    FindsAlike(small.entries, large.entries, key, m, n, until, now);
    if Lookup(small.entries, key).Some? {
      var x, y := Lookup(small.entries, key).value, Lookup(large.entries, key).value;
      PairedHit(small.entries, large.entries, x, y, m, n, until);
    } else if Lookup(large.entries, key).Some? {
      PairedHitLarge(small.entries, large.entries, Lookup(large.entries, key).value, m, n, until);
    }
  }

  lemma PairedLater(small: Entries, large: Entries, m: nat, n: nat, until: real, later: real)
    requires Paired(small, large, m, n, until) && until <= later
    ensures Paired(small, large, m, n, later)
  {
  }

  /** Both clients store the answer. */
  lemma BothStore(small: Entries, large: Entries, key: Key, text: string, purge: real, store: real, m: nat, n: nat,
                  ttl: real, until: real)
    requires 1 <= m <= n && Paired(small, large, m, n, until) && AllLive(large, purge) && until <= store + ttl
    ensures Paired(AfterPut(small, key, text, purge, store, m, ttl), AfterPut(large, key, text, purge, store, n, ttl),
                   m, n, store + ttl)
  {
    var e := Entry(key, text, store + ttl);
    SmallIsLive(small, large, m, n, purge);
    LiveStore(small, key, text, purge, store, m, ttl);
    LiveStore(large, key, text, purge, store, n, ttl);
    PairedPut(small, large, e, e, m, n, until, store + ttl);
  }

  /** Only the small cache stores: the large one had answered the chat, and used that key last. */
  lemma SmallStores(small: Entries, large: Entries, key: Key, text: string, purge: real, store: real, m: nat, n: nat,
                    ttl: real, until: real)
    requires 1 <= m <= n && Paired(small, large, m, n, until) && AllLive(large, purge) && until <= store + ttl
    requires EndsWith(large, key)
    ensures Paired(AfterPut(small, key, text, purge, store, m, ttl), large, m, n, store + ttl)
  {
    SmallIsLive(small, large, m, n, purge);
    LiveStore(small, key, text, purge, store, m, ttl);
    PairedLater(small, large, m, n, until, store + ttl);
    PairedRenewal(small, large, Entry(key, text, store + ttl), m, n, store + ttl);
  }

  lemma OnlyChat(flying: multiset<nat>, client: nat)
    requires |flying| <= 1 && client in flying
    ensures flying == multiset{client}
  {
    assert |flying - multiset{client}| == |flying| - 1;
    assert flying == (flying - multiset{client}) + multiset{client};
  }

  /** The only chat in progress gets its answer. */
  lemma CompleteInStep(small: Traffic, large: Traffic, flying: multiset<nat>, move: Move, answer: Answerer,
                       m: nat, n: nat, ttl: real, until: real)
    requires 1 <= m <= n && InStep(small, large, flying, m, n, until) && |flying| <= 1
    requires move.Complete? && StaysLive(large.entries, move) && until <= move.store + ttl
    ensures InStep(Step(small, move, answer, m, ttl), Step(large, move, answer, n, ttl),
                   flying - multiset{move.client}, m, n, move.store + ttl)
  {
    var client, purge, store := move.client, move.purge, move.store;
    PairedLater(small.entries, large.entries, m, n, until, store + ttl);
    if client in small.asking {
      var key := small.asking[client];
      OnlyChat(flying, client);
      if answer(key).Success? && client in large.asking {
        BothStore(small.entries, large.entries, key, answer(key).value, purge, store, m, n, ttl, until);
      } else if answer(key).Success? {
        SmallStores(small.entries, large.entries, key, answer(key).value, purge, store, m, n, ttl, until);
      }
    }
  }

  /** Discarding and clearing while no chat is in progress. */
  lemma RemovalInStep(small: Traffic, large: Traffic, move: Move, answer: Answerer, m: nat, n: nat, ttl: real,
                      until: real)
    requires 1 <= m <= n && InStep(small, large, multiset{}, m, n, until) && Removes(move)
    ensures InStep(Step(small, move, answer, m, ttl), Step(large, move, answer, n, ttl), multiset{}, m, n, until)
  {
    if move.op.Discard? {
      TracksDiscard(small.entries, large.entries, move.op.key, m, n);
    }
  }

  /** Sizes are asked for: nothing is purged. */
  lemma IdleInStep(small: Traffic, large: Traffic, flying: multiset<nat>, move: Move, answer: Answerer,
                   m: nat, n: nat, ttl: real, until: real, later: real)
    requires InStep(small, large, flying, m, n, until) && until <= later
    requires move.Touch? && !Removes(move) && StaysLive(large.entries, move)
    ensures InStep(Step(small, move, answer, m, ttl), Step(large, move, answer, n, ttl), flying, m, n, later)
  {
    PairedLater(small.entries, large.entries, m, n, until, later);
    if move.op.Size? {
      SmallIsLive(small.entries, large.entries, m, n, move.op.now);
      FilterAll(small.entries, IsLive(move.op.now));
      FilterAll(large.entries, IsLive(move.op.now));
    }
  }

  /** With one operation at a time, a move keeps the two caches in step. */
  lemma MoveInStep(small: Traffic, large: Traffic, flying: multiset<nat>, move: Move, answer: Answerer,
                   m: nat, n: nat, ttl: real, since: real)
    requires 1 <= m <= n && InStep(small, large, flying, m, n, since + ttl)
    requires InOrder(move, since) && StaysLive(large.entries, move)
    requires |flying| <= 1 && |Flying(flying, move)| + (if Removes(move) then 1 else 0) <= 1
    ensures InStep(Step(small, move, answer, m, ttl), Step(large, move, answer, n, ttl), Flying(flying, move), m, n,
                   Read(move, since) + ttl)
  {
    if move.LookUp? || Removes(move) {
      assert |flying| == 0;
    }
    match move
    case LookUp(client, key, now) =>
      LookUpInStep(small, large, client, key, now, m, n, since + ttl);
      var s, l := DoLookUp(small, client, key, now), DoLookUp(large, client, key, now);
      PairedLater(s.entries, l.entries, m, n, since + ttl, now + ttl);
    case Complete(_, _, _) => CompleteInStep(small, large, flying, move, answer, m, n, ttl, since + ttl);
    case Touch(_) =>
      if Removes(move) {
        RemovalInStep(small, large, move, answer, m, n, ttl, since + ttl);
      } else {
        IdleInStep(small, large, flying, move, answer, m, n, ttl, since + ttl, Read(move, since) + ttl);
      }
  }

  lemma {:induction false} RunInStep(moves: seq<Move>, answer: Answerer, m: nat, n: nat, ttl: real, start: real)
    requires 1 <= m <= n && Clocked(moves, start) && AtOnce(moves, 1) && NothingExpires(moves, answer, n, ttl)
    ensures InStep(After(moves, answer, m, ttl), After(moves, answer, n, ttl), InFlight(moves), m, n,
                   Latest(moves, start) + ttl)
    ensures |InFlight(moves)| <= 1
  {
    if moves == [] {
      assert Bare([]) == [];
    } else {
      var front, last := moves[..|moves| - 1], moves[|moves| - 1];
      RunInStep(front, answer, m, n, ttl, start);
      MoveInStep(After(front, answer, m, ttl), After(front, answer, n, ttl), InFlight(front), last, answer, m, n, ttl,
                 Latest(front, start));
    }
  }

  lemma HitIsKept(small: Traffic, large: Traffic, flying: multiset<nat>, move: Move, answer: Answerer, m: nat, n: nat,
                  until: real)
    requires InStep(small, large, flying, m, n, until) && StaysLive(large.entries, move)
    requires Answered(small.entries, answer) && Answered(large.entries, answer)
    ensures KeepsHit(small, large, move, answer)
  {
    if move.LookUp? {
      FindsAlike(small.entries, large.entries, move.key, m, n, until, move.now);
    }
  }

  /**
   * Under the same run with one operation at a time, as long as the larger cache lets nothing expire, it
   * keeps every hit of the smaller one. The provider may fail.
   */
  lemma {:induction false} FreshCacheKeepsEveryHit(moves: seq<Move>, answer: Answerer, m: nat, n: nat, ttl: real,
                                                   start: real)
    requires 1 <= m <= n && Clocked(moves, start) && AtOnce(moves, 1) && NothingExpires(moves, answer, n, ttl)
    ensures KeepsEveryHit(moves, answer, m, n, ttl)
  {
    if moves == [] {
    } else {
      var front, last := moves[..|moves| - 1], moves[|moves| - 1];
      FreshCacheKeepsEveryHit(front, answer, m, n, ttl, start);
      RunInStep(front, answer, m, n, ttl, start);
      RunIsTruthful(front, Settings(true, m, ttl), answer);
      RunIsTruthful(front, Settings(true, n, ttl), answer);
      HitIsKept(After(front, answer, m, ttl), After(front, answer, n, ttl), InFlight(front), last, answer, m, n,
                Latest(front, start) + ttl);
    }
  }

  // ---------------------------------------------------------------------------
  // A short run sees nothing expire
  // ---------------------------------------------------------------------------

  ghost predicate From(s: Entries, earliest: real) {
    forall e :: e in s ==> e.expiresAt >= earliest
  }

  /** What a move leaves was there before, or was stored by it. */
  lemma MoveOrigin(s: Traffic, move: Move, answer: Answerer, cap: nat, ttl: real, start: real, since: real)
    requires From(s.entries, start + ttl) && start <= since && InOrder(move, since)
    ensures From(Step(s, move, answer, cap, ttl).entries, start + ttl) && start <= Read(move, since)
  {
    forall e | e in Step(s, move, answer, cap, ttl).entries ensures e.expiresAt >= start + ttl {
      match move
      case LookUp(_, key, now) =>
        if e !in s.entries {
          StepOrigin(s.entries, Get(key, now), cap, ttl, e);
        }
      case Complete(client, purge, store) =>
        if e !in s.entries {
          var key := s.asking[client];
          StepOrigin(s.entries, Put(key, answer(key).value, purge, store), cap, ttl, e);
        }
      case Touch(op) =>
        if e !in s.entries {
          StepOrigin(s.entries, op, cap, ttl, e);
        }
    }
  }

  /** No entry expires sooner than a time to live after the start. */
  lemma {:induction false} NoneExpiresSooner(moves: seq<Move>, answer: Answerer, cap: nat, ttl: real, start: real)
    requires Clocked(moves, start)
    ensures From(After(moves, answer, cap, ttl).entries, start + ttl) && start <= Latest(moves, start)
  {
    if moves == [] {
    } else {
      var front := moves[..|moves| - 1];
      NoneExpiresSooner(front, answer, cap, ttl, start);
      MoveOrigin(After(front, answer, cap, ttl), moves[|moves| - 1], answer, cap, ttl, start, Latest(front, start));
    }
  }

  /** A run that is over in less than a time to live sees nothing expire, however its chats interleave. */
  lemma {:induction false} ShortSpanIsFresh(moves: seq<Move>, answer: Answerer, cap: nat, ttl: real, start: real)
    requires Clocked(moves, start) && Latest(moves, start) < start + ttl
    ensures NothingExpires(moves, answer, cap, ttl)
  {
    if moves == [] {
    } else {
      var front := moves[..|moves| - 1];
      ShortSpanIsFresh(front, answer, cap, ttl, start);
      NoneExpiresSooner(front, answer, cap, ttl, start);
    }
  }

  // ---------------------------------------------------------------------------
  // Runs in which the smaller cache hits and the larger one misses
  // ---------------------------------------------------------------------------

  ghost predicate NeverFails(answer: Answerer) {
    forall key :: answer(key).Success?
  }

  function TextOf(answer: Answerer, key: Key): string {
    match answer(key)
    case Success(text) => text
    case Failure(_) => ""
  }

  /** A chat of client 0 that nothing interrupts; a size asked for after it would purge nothing in the runs below. */
  function Chat(key: Key, t: real): seq<Move> {
    [LookUp(0, key, t), Complete(0, t, t)]
  }

  /** Client 0 is free, and nothing that the cache holds expires. */
  ghost predicate Free(s: Traffic, now: real) {
    0 !in s.asking && AllLive(s.entries, now)
  }

  /** The entry that a store at a time to live before makes. */
  function Stored(key: Key, expiresAt: real, answer: Answerer): Entry {
    Entry(key, TextOf(answer, key), expiresAt)
  }

  ghost predicate HasStored(s: Traffic, s': Traffic, e: Entry, cap: nat) {
    s'.entries == Trim(PutLast(s.entries, e), cap) && s'.asking == s.asking
  }

  /** A run from the empty cache, as a function of its moves. */
  type Course = seq<Move> -> Traffic

  ghost predicate Runs(run: Course, answer: Answerer, cap: nat, ttl: real) {
    forall moves {:trigger After(moves, answer, cap, ttl)} :: run(moves) == After(moves, answer, cap, ttl)
  }

  function RunOf(answer: Answerer, cap: nat, ttl: real): Course {
    (moves: seq<Move>) => After(moves, answer, cap, ttl)
  }

  lemma StartsEmpty(run: Course, answer: Answerer, cap: nat, ttl: real)
    requires Runs(run, answer, cap, ttl)
    ensures run([]) == Traffic([], map[], [])
  {
    assert After([], answer, cap, ttl) == Traffic([], map[], []);
  }

  lemma MoveOnTop(run: Course, base: seq<Move>, move: Move, answer: Answerer, cap: nat, ttl: real)
    requires Runs(run, answer, cap, ttl)
    ensures run(base + [move]) == Step(run(base), move, answer, cap, ttl)
  {
    assert (base + [move])[..|base|] == base;
    assert After(base + [move], answer, cap, ttl) == Step(After(base, answer, cap, ttl), move, answer, cap, ttl);
  }

  /** A lookup that finds nothing; nothing expires. */
  lemma Asks(run: Course, base: seq<Move>, client: nat, key: Key, now: real, answer: Answerer, cap: nat, ttl: real)
    requires Runs(run, answer, cap, ttl)
    requires client !in run(base).asking && AllLive(run(base).entries, now) && key !in Keys(run(base).entries)
    ensures var s := run(base + [LookUp(client, key, now)]);
            s.entries == run(base).entries && s.asking == run(base).asking[client := key]
  {
    MoveOnTop(run, base, LookUp(client, key, now), answer, cap, ttl);
    LiveLookup(run(base).entries, key, now);
  }

  /** A lookup that finds an entry; nothing expires. */
  lemma Finds(run: Course, base: seq<Move>, client: nat, e: Entry, now: real, answer: Answerer, cap: nat, ttl: real)
    requires Runs(run, answer, cap, ttl)
    requires client !in run(base).asking && AllLive(run(base).entries, now)
    requires Lookup(run(base).entries, e.key) == Some(e)
    ensures var s := run(base + [LookUp(client, e.key, now)]);
            s.entries == PutLast(run(base).entries, e) && s.asking == run(base).asking
  {
    MoveOnTop(run, base, LookUp(client, e.key, now), answer, cap, ttl);
    LiveLookup(run(base).entries, e.key, now);
  }

  /** A provider's answer for a client that asked; nothing expires. */
  lemma IsAnswered(run: Course, base: seq<Move>, client: nat, now: real, answer: Answerer, cap: nat, ttl: real)
    requires Runs(run, answer, cap, ttl) && NeverFails(answer)
    requires client in run(base).asking && AllLive(run(base).entries, now)
    ensures var s, s' := run(base), run(base + [Complete(client, now, now)]);
            && s'.asking == s.asking - {client}
            && s'.entries == Trim(PutLast(s.entries, Stored(s.asking[client], now + ttl, answer)), cap)
  {
    var key := run(base).asking[client];
    MoveOnTop(run, base, Complete(client, now, now), answer, cap, ttl);
    LiveStore(run(base).entries, key, TextOf(answer, key), now, now, cap, ttl);
  }

  lemma IsDone(run: Course, base: seq<Move>, client: nat, now: real, answer: Answerer, cap: nat, ttl: real)
    requires Runs(run, answer, cap, ttl) && client !in run(base).asking
    ensures run(base + [Complete(client, now, now)]) == run(base)
  {
    MoveOnTop(run, base, Complete(client, now, now), answer, cap, ttl);
  }

  lemma TwoMoves(base: seq<Move>, key: Key, t: real)
    ensures base + Chat(key, t) == (base + [LookUp(0, key, t)]) + [Complete(0, t, t)]
  {
  }

  /** While nothing expires, a chat about a key that is not held stores it. */
  lemma MissChat(run: Course, base: seq<Move>, key: Key, t: real, answer: Answerer, cap: nat, ttl: real)
    requires Runs(run, answer, cap, ttl) && NeverFails(answer)
    requires Free(run(base), t) && key !in Keys(run(base).entries)
    ensures HasStored(run(base), run(base + Chat(key, t)), Stored(key, t + ttl, answer), cap)
  {
    TwoMoves(base, key, t);
    Asks(run, base, 0, key, t, answer, cap, ttl);
    IsAnswered(run, base + [LookUp(0, key, t)], 0, t, answer, cap, ttl);
    assert run(base).asking[0 := key] - {0} == run(base).asking;
  }

  /** While nothing expires, a chat about a key that is held moves it to the end. */
  lemma HitChat(run: Course, base: seq<Move>, e: Entry, t: real, answer: Answerer, cap: nat, ttl: real)
    requires Runs(run, answer, cap, ttl)
    requires Free(run(base), t) && Lookup(run(base).entries, e.key) == Some(e)
    ensures var s, s' := run(base), run(base + Chat(e.key, t));
            s'.entries == PutLast(s.entries, e) && s'.asking == s.asking
  {
    TwoMoves(base, e.key, t);
    Finds(run, base, 0, e, t, answer, cap, ttl);
    IsDone(run, base + [LookUp(0, e.key, t)], 0, t, answer, cap, ttl);
  }

  // Four chats: A, B, A again, and A once more when a time to live has passed since the first.

  const THREE: seq<Move> := Chat("A", 0.0) + Chat("B", 1.0) + Chat("A", 2.0)

  lemma OneEntryRotates(x: Entry, e: Entry)
    requires x.key != e.key
    ensures PutLast([x], e) == [x, e]
  {
    FilterOne(x, IsNot(e.key));
  }

  lemma TwoEntriesRotate(x: Entry, e: Entry)
    requires x.key != e.key
    ensures PutLast([x, e], x) == [e, x] && Lookup([x, e], x.key) == Some(x)
  {
    assert [x] + [e] == [x, e];
    FilterExtend([x], e, IsNot(x.key));
    FilterOne(x, IsNot(x.key));
  }

  /** The first two chats store, whatever the capacity. */
  lemma TwoChats(run: Course, answer: Answerer, cap: nat)
    requires Runs(run, answer, cap, 10.0) && NeverFails(answer) && cap >= 1
    ensures var s := run(Chat("A", 0.0) + Chat("B", 1.0));
            s.entries == Trim([Stored("A", 10.0, answer), Stored("B", 11.0, answer)], cap) && s.asking == map[]
  {
    StartsEmpty(run, answer, cap, 10.0);
    MissChat(run, [], "A", 0.0, answer, cap, 10.0);
    assert [] + Chat("A", 0.0) == Chat("A", 0.0);
    MissChat(run, Chat("A", 0.0), "B", 1.0, answer, cap, 10.0);
    OneEntryRotates(Stored("A", 10.0, answer), Stored("B", 11.0, answer));
  }

  /** With capacity 1 the third chat renews A. */
  lemma ThreeChatsOfOne(run: Course, answer: Answerer)
    requires Runs(run, answer, 1, 10.0) && NeverFails(answer)
    ensures GetHit(run(THREE).entries, "A", 11.0).Some?
  {
    var two := Chat("A", 0.0) + Chat("B", 1.0);
    TwoChats(run, answer, 1);
    MissChat(run, two, "A", 2.0, answer, 1, 10.0);
    PutIsFound(run(two).entries, Stored("A", 12.0, answer), 1, 11.0);
  }

  /** With capacity 2 it hits, and A keeps its expiry. */
  lemma ThreeChatsOfTwo(run: Course, answer: Answerer)
    requires Runs(run, answer, 2, 10.0) && NeverFails(answer)
    ensures GetHit(run(THREE).entries, "A", 11.0).None?
  {
    var a, b := Stored("A", 10.0, answer), Stored("B", 11.0, answer);
    TwoChats(run, answer, 2);
    TwoEntriesRotate(a, b);
    HitChat(run, Chat("A", 0.0) + Chat("B", 1.0), a, 2.0, answer, 2, 10.0);
    FilterNone([b, a], IsLive(11.0));
  }

  /** Four chats with a time to live of 10: the last one hits with capacity 1 and misses with capacity 2. */
  lemma LargerCacheCanMiss(answer: Answerer)
    requires NeverFails(answer)
    ensures GetHit(After(THREE, answer, 1, 10.0).entries, "A", 11.0).Some?
    ensures GetHit(After(THREE, answer, 2, 10.0).entries, "A", 11.0).None?
  {
    ThreeChatsOfOne(RunOf(answer, 1, 10.0), answer);
    ThreeChatsOfTwo(RunOf(answer, 2, 10.0), answer);
  }

  // Any capacities: chats about many keys.

  /** Keys that differ in their length. */
  function Name(i: nat): Key {
    seq(i, _ => 'k')
  }

  /** Chats at `t` about the keys from `lo` up to `hi`. */
  function Chats(base: seq<Move>, lo: nat, hi: nat, t: real): seq<Move> {
    if hi <= lo then base else Chats(base, lo, hi - 1, t) + Chat(Name(hi - 1), t)
  }

  function Named(i: nat, expiresAt: real, answer: Answerer): Entry {
    Stored(Name(i), expiresAt, answer)
  }

  function Filled(lo: nat, hi: nat, expiresAt: real, answer: Answerer): Entries
    requires lo <= hi
  {
    seq(hi - lo, i requires 0 <= i < hi - lo => Named(lo + i, expiresAt, answer))
  }

  lemma TrimExtend(s: Entries, e: Entry, cap: nat)
    requires cap >= 1
    ensures Trim(Trim(s, cap) + [e], cap) == Trim(s + [e], cap)
  {
  }

  lemma FilledExtends(lo: nat, hi: nat, expiresAt: real, answer: Answerer)
    requires lo <= hi
    ensures Filled(lo, hi + 1, expiresAt, answer)
         == Filled(lo, hi, expiresAt, answer) + [Named(hi, expiresAt, answer)]
  {
  }

  lemma FilledMember(lo: nat, hi: nat, expiresAt: real, answer: Answerer, e: Entry)
    requires lo <= hi && e in Filled(lo, hi, expiresAt, answer)
    ensures lo <= |e.key| < hi && e.expiresAt == expiresAt
  {
    var i :| 0 <= i < hi - lo && Filled(lo, hi, expiresAt, answer)[i] == e;
    assert e == Named(lo + i, expiresAt, answer) && |Name(lo + i)| == lo + i;
  }

  /** What a cache has come to that held `s` and was then filled. */
  lemma FilledIsNew(s: Entries, lo: nat, hi: nat, expiresAt: real, answer: Answerer, cap: nat, now: real)
    requires lo <= hi && Name(hi) !in Keys(s) && AllLive(s, now) && expiresAt > now
    ensures var full := Trim(s + Filled(lo, hi, expiresAt, answer), cap);
            Name(hi) !in Keys(full) && Without(full, Name(hi)) == full && AllLive(full, now)
  {
    var full := Trim(s + Filled(lo, hi, expiresAt, answer), cap);
    forall e | e in full ensures e.key != Name(hi) && e.expiresAt > now {
      assert e in s + Filled(lo, hi, expiresAt, answer);
      if e in Filled(lo, hi, expiresAt, answer) {
        FilledMember(lo, hi, expiresAt, answer, e);
        assert |Name(hi)| == hi;
      }
    }
    FilterAll(full, IsNot(Name(hi)));
  }

  /** One key more. */
  lemma FillOne(s: Entries, full: Entries, e: Entry, lo: nat, hi: nat, answer: Answerer, cap: nat, now: real)
    requires lo <= hi && cap >= 1 && Name(hi) !in Keys(s) && AllLive(s, now) && e.expiresAt > now
    requires e == Named(hi, e.expiresAt, answer) && full == Trim(s + Filled(lo, hi, e.expiresAt, answer), cap)
    ensures Trim(PutLast(full, e), cap) == Trim(s + Filled(lo, hi + 1, e.expiresAt, answer), cap)
  {
    var filled := Filled(lo, hi, e.expiresAt, answer);
    FilledIsNew(s, lo, hi, e.expiresAt, answer, cap, now);
    FilledExtends(lo, hi, e.expiresAt, answer);
    TrimExtend(s + filled, e, cap);
    ConcatAssociates(s, filled, [e]);
  }

  ghost predicate NewNames(s: Entries, lo: nat, hi: nat) {
    forall i :: lo <= i < hi ==> Name(i) !in Keys(s)
  }

  /** The cache that was `s` has been filled with the keys from `lo` up to `hi`. */
  ghost predicate IsFilled(s: Traffic, s': Traffic, lo: nat, hi: nat, expiresAt: real, answer: Answerer, cap: nat)
    requires lo <= hi
  {
    s'.entries == Trim(s.entries + Filled(lo, hi, expiresAt, answer), cap) && s'.asking == s.asking
  }

  lemma FillNone(s: Traffic, lo: nat, expiresAt: real, answer: Answerer, cap: nat)
    requires |s.entries| <= cap
    ensures IsFilled(s, s, lo, lo, expiresAt, answer, cap)
  {
    assert s.entries + Filled(lo, lo, expiresAt, answer) == s.entries;
  }

  lemma FilledIsLive(s: Traffic, filled: Traffic, lo: nat, hi: nat, t: real, answer: Answerer, cap: nat, ttl: real)
    requires lo <= hi && ttl > 0.0 && Free(s, t) && IsFilled(s, filled, lo, hi, t + ttl, answer, cap)
    ensures Free(filled, t)
  {
    forall e | e in filled.entries ensures e.expiresAt > t {
      assert e in s.entries + Filled(lo, hi, t + ttl, answer);
      if e in Filled(lo, hi, t + ttl, answer) {
        FilledMember(lo, hi, t + ttl, answer, e);
      }
    }
  }

  lemma FilledHasRoom(s: Traffic, filled: Traffic, lo: nat, hi: nat, t: real, answer: Answerer, cap: nat, ttl: real)
    requires lo <= hi && ttl > 0.0 && Free(s, t) && Name(hi) !in Keys(s.entries)
    requires IsFilled(s, filled, lo, hi, t + ttl, answer, cap)
    ensures Free(filled, t) && Name(hi) !in Keys(filled.entries)
  {
    FilledIsNew(s.entries, lo, hi, t + ttl, answer, cap, t);
  }

  lemma FillStep(s: Traffic, filled: Traffic, more: Traffic, e: Entry, lo: nat, hi: nat, t: real, answer: Answerer,
                 cap: nat)
    requires lo <= hi && cap >= 1 && Free(s, t) && Name(hi) !in Keys(s.entries)
    requires e == Named(hi, e.expiresAt, answer) && e.expiresAt > t
    requires IsFilled(s, filled, lo, hi, e.expiresAt, answer, cap) && HasStored(filled, more, e, cap)
    ensures IsFilled(s, more, lo, hi + 1, e.expiresAt, answer, cap)
  {
    FillOne(s.entries, filled.entries, e, lo, hi, answer, cap, t);
  }

  /** Chats about new keys fill a cache with the newest of them. */
  lemma {:induction false} Fill(run: Course, base: seq<Move>, lo: nat, hi: nat, t: real, answer: Answerer, cap: nat,
                                ttl: real)
    requires Runs(run, answer, cap, ttl)
    requires lo <= hi && cap >= 1 && ttl > 0.0 && NeverFails(answer)
    requires var s := run(base);
             Free(s, t) && |s.entries| <= cap && NewNames(s.entries, lo, hi)
    ensures IsFilled(run(base), run(Chats(base, lo, hi, t)), lo, hi, t + ttl, answer, cap)
  {
    var s := run(base);
    if lo == hi {
      FillNone(s, lo, t + ttl, answer, cap);
    } else {
      Fill(run, base, lo, hi - 1, t, answer, cap, ttl);
      var filled := run(Chats(base, lo, hi - 1, t));
      FilledHasRoom(s, filled, lo, hi - 1, t, answer, cap, ttl);
      MissChat(run, Chats(base, lo, hi - 1, t), Name(hi - 1), t, answer, cap, ttl);
      FillStep(s, filled, run(Chats(base, lo, hi, t)), Named(hi - 1, t + ttl, answer), lo, hi - 1,
               t, answer, cap);
    }
  }

  lemma FilledIsLater(m: nat, answer: Answerer, cap: nat, ttl: real)
    requires ttl > 0.0
    ensures AllLive(Trim(Filled(0, m + 1, ttl, answer), cap), ttl / 2.0)
  {
    var full := Filled(0, m + 1, ttl, answer);
    forall e | e in Trim(full, cap) ensures e.expiresAt > ttl / 2.0 {
      assert e in full;
      FilledMember(0, m + 1, ttl, answer, e);
    }
  }

  lemma FilledFromEmpty(s: Traffic, filled: Traffic, m: nat, expiresAt: real, answer: Answerer, cap: nat)
    requires s.entries == [] && s.asking == map[] && IsFilled(s, filled, 0, m + 1, expiresAt, answer, cap)
    ensures filled.entries == Trim(Filled(0, m + 1, expiresAt, answer), cap) && filled.asking == map[]
  {
    NothingBefore(Filled(0, m + 1, expiresAt, answer));
  }

  /** The first m + 1 keys fill a cache. */
  lemma FirstFill(run: Course, m: nat, answer: Answerer, cap: nat, ttl: real)
    requires Runs(run, answer, cap, ttl)
    requires cap >= 1 && ttl > 0.0 && NeverFails(answer)
    ensures var s := run(Chats([], 0, m + 1, 0.0));
            s.entries == Trim(Filled(0, m + 1, ttl, answer), cap) && s.asking == map[] && Free(s, ttl / 2.0)
  {
    StartsEmpty(run, answer, cap, ttl);
    Fill(run, [], 0, m + 1, 0.0, answer, cap, ttl);
    FilledFromEmpty(run([]), run(Chats([], 0, m + 1, 0.0)), m, 0.0 + ttl, answer, cap);
    FilledIsLater(m, answer, cap, ttl);
  }

  /** A cache of capacity m no longer has the first of the keys. */
  lemma FirstIsEvicted(m: nat, expiresAt: real, answer: Answerer)
    ensures Name(0) !in Keys(Trim(Filled(0, m + 1, expiresAt, answer), m))
    ensures Trim(Filled(0, m + 1, expiresAt, answer), m) == Filled(1, m + 1, expiresAt, answer)
  {
    forall e | e in Filled(1, m + 1, expiresAt, answer) ensures e.key != Name(0) {
      FilledMember(1, m + 1, expiresAt, answer, e);
      assert |Name(0)| == 0;
    }
    assert Trim(Filled(0, m + 1, expiresAt, answer), m) == Filled(1, m + 1, expiresAt, answer);
  }

  /** A larger one has. */
  lemma FirstIsHeld(m: nat, expiresAt: real, answer: Answerer)
    ensures var s := Filled(0, m + 1, expiresAt, answer);
            Distinct(s) && Lookup(s, Name(0)) == Some(Named(0, expiresAt, answer))
  {
    var s := Filled(0, m + 1, expiresAt, answer);
    forall i, j | 0 <= i < j < |s| ensures s[i].key != s[j].key {
      assert |Name(i)| == i && |Name(j)| == j && s[i] == Named(i, expiresAt, answer);
    }
    assert s[0] in s && s[0] == Named(0, expiresAt, answer);
    LookupFinds(s, s[0]);
  }

  /** Putting an entry last into a cache with room for one keeps it. */
  lemma PutIsFound(s: Entries, e: Entry, cap: nat, now: real)
    requires cap >= 1 && e.expiresAt > now
    ensures GetHit(Trim(PutLast(s, e), cap), e.key, now).Some?
  {
    var after := Trim(PutLast(s, e), cap);
    assert after[|after| - 1] == e;
    assert e in Purge(after, now);
  }

  // Renewal: chats about m + 1 keys, one about the first of them halfway, and a lookup of it at the end.

  function Halfway(m: nat, ttl: real): seq<Move> {
    Chats([], 0, m + 1, 0.0) + Chat(Name(0), ttl / 2.0)
  }

  function Renewal(m: nat, ttl: real): seq<Move> {
    Halfway(m, ttl) + [LookUp(0, Name(0), ttl)]
  }

  /** A chat that misses stores an entry that is still found less than a time to live later. */
  lemma MissIsRenewed(run: Course, base: seq<Move>, key: Key, t: real, until: real, answer: Answerer, cap: nat,
                      ttl: real)
    requires Runs(run, answer, cap, ttl) && NeverFails(answer) && cap >= 1 && until < t + ttl
    requires Free(run(base), t) && key !in Keys(run(base).entries)
    ensures var s := run(base + Chat(key, t));
            GetHit(s.entries, key, until).Some? && s.asking == run(base).asking
  {
    MissChat(run, base, key, t, answer, cap, ttl);
    PutIsFound(run(base).entries, Stored(key, t + ttl, answer), cap, until);
  }

  /** A chat that hits renews nothing. */
  lemma HitIsNotRenewed(run: Course, base: seq<Move>, e: Entry, t: real, until: real, answer: Answerer, cap: nat,
                        ttl: real)
    requires Runs(run, answer, cap, ttl)
    requires Free(run(base), t) && Lookup(run(base).entries, e.key) == Some(e) && Until(run(base).entries, until)
    ensures GetHit(run(base + Chat(e.key, t)).entries, e.key, until).None?
  {
    HitChat(run, base, e, t, answer, cap, ttl);
    PutMember(run(base).entries, e, cap);
    FilterNone(run(base + Chat(e.key, t)).entries, IsLive(until));
  }

  lemma FilledUntil(lo: nat, hi: nat, expiresAt: real, answer: Answerer)
    requires lo <= hi
    ensures Until(Filled(lo, hi, expiresAt, answer), expiresAt)
  {
    forall e | e in Filled(lo, hi, expiresAt, answer) ensures e.expiresAt <= expiresAt {
      FilledMember(lo, hi, expiresAt, answer, e);
    }
  }

  /** The small cache has evicted the first key, and renews it halfway. */
  lemma SmallCacheRenews(run: Course, m: nat, answer: Answerer, ttl: real)
    requires Runs(run, answer, m, ttl)
    requires m >= 1 && ttl > 0.0 && NeverFails(answer)
    ensures var s := run(Halfway(m, ttl));
            s.asking == map[] && GetHit(s.entries, Name(0), ttl).Some?
  {
    FirstFill(run, m, answer, m, ttl);
    FirstIsEvicted(m, ttl, answer);
    MissIsRenewed(run, Chats([], 0, m + 1, 0.0), Name(0), ttl / 2.0, ttl, answer, m, ttl);
  }

  /** The large cache still has the first key halfway, does not renew it, and loses it in the end. */
  lemma LargeCacheForgets(run: Course, m: nat, n: nat, answer: Answerer, ttl: real)
    requires Runs(run, answer, n, ttl)
    requires m < n && ttl > 0.0 && NeverFails(answer)
    ensures GetHit(run(Halfway(m, ttl)).entries, Name(0), ttl).None?
  {
    FirstFill(run, m, answer, n, ttl);
    FirstIsHeld(m, ttl, answer);
    FilledUntil(0, m + 1, ttl, answer);
    HitIsNotRenewed(run, Chats([], 0, m + 1, 0.0), Named(0, ttl, answer), ttl / 2.0, ttl, answer, n, ttl);
  }

  lemma LastHitIsLost(front: seq<Move>, key: Key, now: real, answer: Answerer, m: nat, n: nat, ttl: real)
    requires 0 !in After(front, answer, m, ttl).asking
    requires GetHit(After(front, answer, m, ttl).entries, key, now).Some?
    requires GetHit(After(front, answer, n, ttl).entries, key, now).None?
    ensures !KeepsEveryHit(front + [LookUp(0, key, now)], answer, m, n, ttl)
  {
    var moves := front + [LookUp(0, key, now)];
    assert moves[..|moves| - 1] == front;
  }

  /** The run, one chat at a time, hits with capacity m and misses with every larger one, whatever the provider says. */
  lemma RenewalLosesAHit(m: nat, n: nat, answer: Answerer, ttl: real)
    requires 1 <= m < n && ttl > 0.0 && NeverFails(answer)
    ensures !KeepsEveryHit(Renewal(m, ttl), answer, m, n, ttl)
  {
    SmallCacheRenews(RunOf(answer, m, ttl), m, answer, ttl);
    LargeCacheForgets(RunOf(answer, n, ttl), m, n, answer, ttl);
    LastHitIsLost(Halfway(m, ttl), Name(0), ttl, answer, m, n, ttl);
  }

  // Overlap: chats about m + 1 keys, client 1 looks up the first of them, chats about n more, client 1 completes.

  function AskedAgain(m: nat): seq<Move> {
    Chats([], 0, m + 1, 0.0) + [LookUp(1, Name(0), 0.0)]
  }

  function Overtaken(m: nat, n: nat): seq<Move> {
    Chats(AskedAgain(m), m + 1, m + 1 + n, 0.0) + [Complete(1, 0.0, 0.0)]
  }

  function Overlap(m: nat, n: nat): seq<Move> {
    Overtaken(m, n) + [LookUp(0, Name(0), 0.0)]
  }

  /** Client 1 has asked for the first key: the small cache does not have it. */
  lemma SmallCacheIsAsked(run: Course, m: nat, answer: Answerer, ttl: real)
    requires Runs(run, answer, m, ttl)
    requires m >= 1 && ttl > 0.0 && NeverFails(answer)
    ensures run(AskedAgain(m)).entries == Filled(1, m + 1, ttl, answer)
    ensures run(AskedAgain(m)).asking == map[1 := Name(0)]
  {
    var base := Chats([], 0, m + 1, 0.0);
    FirstFill(run, m, answer, m, ttl);
    FirstIsEvicted(m, ttl, answer);
    assert Free(run(base), 0.0);
    Asks(run, base, 1, Name(0), 0.0, answer, m, ttl);
  }

  /** The large cache has it, and has it last then. */
  lemma LargeCacheAnswers(run: Course, m: nat, n: nat, answer: Answerer, ttl: real)
    requires Runs(run, answer, n, ttl)
    requires m < n && ttl > 0.0 && NeverFails(answer)
    ensures var s := run(AskedAgain(m));
            && s.entries == PutLast(Filled(0, m + 1, ttl, answer), Named(0, ttl, answer)) && s.asking == map[]
            && |s.entries| <= m + 1
  {
    var base, full := Chats([], 0, m + 1, 0.0), Filled(0, m + 1, ttl, answer);
    FirstFill(run, m, answer, n, ttl);
    FirstIsHeld(m, ttl, answer);
    assert Free(run(base), 0.0);
    Finds(run, base, 1, Named(0, ttl, answer), 0.0, answer, n, ttl);
    DistinctPutLast(full, Named(0, ttl, answer));
  }

  /** Nothing expires at once. */
  lemma FilledIsFree(s: Traffic, lo: nat, hi: nat, answer: Answerer, ttl: real)
    requires lo <= hi && ttl > 0.0 && 0 !in s.asking
    requires forall e :: e in s.entries ==> e in Filled(lo, hi, ttl, answer)
    ensures Free(s, 0.0) && forall more :: NewNames(s.entries, hi, more)
  {
    forall e | e in s.entries ensures |e.key| < hi && e.expiresAt > 0.0 {
      FilledMember(lo, hi, ttl, answer, e);
    }
    forall i | i >= hi ensures Name(i) !in Keys(s.entries) {
      assert |Name(i)| == i;
    }
  }

  /** Client 1 completes last. */
  lemma SmallCacheStoresLate(run: Course, m: nat, n: nat, answer: Answerer, ttl: real)
    requires Runs(run, answer, m, ttl)
    requires m >= 1 && ttl > 0.0 && NeverFails(answer)
    ensures var s := run(Overtaken(m, n));
            s.asking == map[] && GetHit(s.entries, Name(0), 0.0).Some?
  {
    var asked, chats := run(AskedAgain(m)), Chats(AskedAgain(m), m + 1, m + 1 + n, 0.0);
    SmallCacheIsAsked(run, m, answer, ttl);
    FilledIsFree(asked, 1, m + 1, answer, ttl);
    Fill(run, AskedAgain(m), m + 1, m + 1 + n, 0.0, answer, m, ttl);
    FilledIsLive(asked, run(chats), m + 1, m + 1 + n, 0.0, answer, m, ttl);
    LateStore(run, chats, answer, m, ttl);
  }

  lemma LateStore(run: Course, chats: seq<Move>, answer: Answerer, cap: nat, ttl: real)
    requires Runs(run, answer, cap, ttl)
    requires cap >= 1 && ttl > 0.0 && NeverFails(answer)
    requires run(chats).asking == map[1 := Name(0)] && AllLive(run(chats).entries, 0.0)
    ensures var s := run(chats + [Complete(1, 0.0, 0.0)]);
            s.asking == map[] && GetHit(s.entries, Name(0), 0.0).Some?
  {
    IsAnswered(run, chats, 1, 0.0, answer, cap, ttl);
    PutIsFound(run(chats).entries, Named(0, 0.0 + ttl, answer), cap, 0.0);
  }

  lemma LargeCacheHasNoNewName(run: Course, m: nat, n: nat, answer: Answerer, ttl: real)
    requires Runs(run, answer, n, ttl)
    requires m < n && ttl > 0.0 && NeverFails(answer)
    ensures var s := run(AskedAgain(m));
            Free(s, 0.0) && |s.entries| <= n && NewNames(s.entries, m + 1, m + 1 + n) && s.asking == map[]
  {
    var full := Filled(0, m + 1, ttl, answer);
    LargeCacheAnswers(run, m, n, answer, ttl);
    PutMember(full, Named(0, ttl, answer), n);
    assert full[0] == Named(0, ttl, answer);
    FilledIsFree(run(AskedAgain(m)), 0, m + 1, answer, ttl);
  }

  /** The chats about new keys have evicted the first one from the large cache, which client 1 does not store. */
  lemma LargeCacheEvicts(run: Course, m: nat, n: nat, answer: Answerer, ttl: real)
    requires Runs(run, answer, n, ttl)
    requires m < n && ttl > 0.0 && NeverFails(answer)
    ensures GetHit(run(Overtaken(m, n)).entries, Name(0), 0.0).None?
  {
    LargeCacheHasNoNewName(run, m, n, answer, ttl);
    FillsUp(run, AskedAgain(m), m + 1, n, answer, ttl);
    IsDone(run, Chats(AskedAgain(m), m + 1, m + 1 + n, 0.0), 1, 0.0, answer, n, ttl);
  }

  lemma FillsUp(run: Course, base: seq<Move>, lo: nat, n: nat, answer: Answerer, ttl: real)
    requires Runs(run, answer, n, ttl) && lo > 0 && n > 0 && ttl > 0.0 && NeverFails(answer)
    requires Free(run(base), 0.0) && |run(base).entries| <= n && NewNames(run(base).entries, lo, lo + n)
    ensures var filled := run(Chats(base, lo, lo + n, 0.0));
            GetHit(filled.entries, Name(0), 0.0).None? && filled.asking == run(base).asking
  {
    Fill(run, base, lo, lo + n, 0.0, answer, n, ttl);
    OnlyNew(run(base), run(Chats(base, lo, lo + n, 0.0)), lo, n, 0.0 + ttl, answer);
  }

  /** As many new keys as a cache has room for leave nothing else. */
  lemma OnlyNew(s: Traffic, filled: Traffic, lo: nat, n: nat, expiresAt: real, answer: Answerer)
    requires lo > 0 && n > 0 && IsFilled(s, filled, lo, lo + n, expiresAt, answer, n)
    ensures GetHit(filled.entries, Name(0), 0.0).None? && filled.asking == s.asking
  {
    var added := Filled(lo, lo + n, expiresAt, answer);
    assert Trim(s.entries + added, n) == added;
    forall e | e in added ensures e.key != Name(0) {
      FilledMember(lo, lo + n, expiresAt, answer, e);
      assert |Name(0)| == 0;
    }
  }

  /**
   * Two chats in progress at one time are enough, at one clock reading: with m = 1 and n = 2, client 0
   * chats A and B, client 1 looks A up, client 0 chats C and D, and client 1 completes.
   */
  lemma OverlapLosesAHit(m: nat, n: nat, answer: Answerer, ttl: real)
    requires 1 <= m < n && ttl > 0.0 && NeverFails(answer)
    ensures !KeepsEveryHit(Overlap(m, n), answer, m, n, ttl)
  {
    SmallCacheStoresLate(RunOf(answer, m, ttl), m, n, answer, ttl);
    LargeCacheEvicts(RunOf(answer, n, ttl), m, n, answer, ttl);
    LastHitIsLost(Overtaken(m, n), Name(0), 0.0, answer, m, n, ttl);
  }

  // ---------------------------------------------------------------------------
  // Exactly when a larger cache keeps every hit
  // ---------------------------------------------------------------------------

  lemma ChatAdmitted(base: seq<Move>, key: Key, t: real, start: real, d: real, k: nat)
    requires Admitted(base, start, d, k) && |InFlight(base)| < k && Latest(base, start) <= t <= start + d
    ensures var moves := base + Chat(key, t);
            Admitted(moves, start, d, k) && Latest(moves, start) == t && InFlight(moves) == InFlight(base)
  {
    MoveAdmitted(base, LookUp(0, key, t), start, d, k);
    var asked := base + [LookUp(0, key, t)];
    assert Flying(InFlight(asked), Complete(0, t, t)) == InFlight(base);
    MoveAdmitted(asked, Complete(0, t, t), start, d, k);
    assert base + Chat(key, t) == asked + [Complete(0, t, t)];
  }

  lemma MoveAdmitted(base: seq<Move>, move: Move, start: real, d: real, k: nat)
    requires Admitted(base, start, d, k) && !Removes(move) && |Flying(InFlight(base), move)| <= k
    requires InOrder(move, Latest(base, start)) && Read(move, Latest(base, start)) <= start + d
    ensures var moves := base + [move];
            && Admitted(moves, start, d, k) && Latest(moves, start) == Read(move, Latest(base, start))
            && InFlight(moves) == Flying(InFlight(base), move)
  {
    assert (base + [move])[..|base|] == base;
  }

  lemma {:induction false} ChatsAdmitted(base: seq<Move>, lo: nat, hi: nat, d: real, k: nat)
    requires Admitted(base, 0.0, d, k) && |InFlight(base)| < k && Latest(base, 0.0) == 0.0 <= d
    ensures var moves := Chats(base, lo, hi, 0.0);
            Admitted(moves, 0.0, d, k) && Latest(moves, 0.0) == 0.0 && InFlight(moves) == InFlight(base)
  {
    if hi <= lo {
    } else {
      ChatsAdmitted(base, lo, hi - 1, d, k);
      ChatAdmitted(Chats(base, lo, hi - 1, 0.0), Name(hi - 1), 0.0, 0.0, d, k);
    }
  }

  lemma RenewalAdmitted(m: nat, ttl: real, d: real, k: nat)
    requires 0.0 < ttl <= d && k >= 1
    ensures Admitted(Renewal(m, ttl), 0.0, d, k)
  {
    ChatsAdmitted([], 0, m + 1, d, k);
    ChatAdmitted(Chats([], 0, m + 1, 0.0), Name(0), ttl / 2.0, 0.0, d, k);
    MoveAdmitted(Halfway(m, ttl), LookUp(0, Name(0), ttl), 0.0, d, k);
  }

  lemma AskedAgainAdmitted(m: nat, d: real, k: nat)
    requires d >= 0.0 && k >= 2
    ensures var moves := AskedAgain(m);
            Admitted(moves, 0.0, d, k) && Latest(moves, 0.0) == 0.0 && InFlight(moves) == multiset{1}
  {
    ChatsAdmitted([], 0, m + 1, d, k);
    MoveAdmitted(Chats([], 0, m + 1, 0.0), LookUp(1, Name(0), 0.0), 0.0, d, k);
  }

  lemma OverlapAdmitted(m: nat, n: nat, d: real, k: nat)
    requires d >= 0.0 && k >= 2
    ensures Admitted(Overlap(m, n), 0.0, d, k)
  {
    var base := AskedAgain(m);
    AskedAgainAdmitted(m, d, k);
    ChatsAdmitted(base, m + 1, m + 1 + n, d, k);
    EndAdmitted(Chats(base, m + 1, m + 1 + n, 0.0), d, k);
  }

  lemma EndAdmitted(chats: seq<Move>, d: real, k: nat)
    requires Admitted(chats, 0.0, d, k) && Latest(chats, 0.0) == 0.0 <= d && InFlight(chats) == multiset{1} && k >= 2
    ensures Admitted(chats + [Complete(1, 0.0, 0.0)] + [LookUp(0, Name(0), 0.0)], 0.0, d, k)
  {
    MoveAdmitted(chats, Complete(1, 0.0, 0.0), 0.0, d, k);
    MoveAdmitted(chats + [Complete(1, 0.0, 0.0)], LookUp(0, Name(0), 0.0), 0.0, d, k);
  }

  lemma {:induction false} AtOnceMore(moves: seq<Move>, k: nat, more: nat)
    requires AtOnce(moves, k) && k <= more
    ensures AtOnce(moves, more)
  {
    if moves == [] {
    } else {
      AtOnceMore(moves[..|moves| - 1], k, more);
    }
  }

  const REPLIES: Provider := (key: Key) => Reply("x")

  lemma RepliesNeverFail()
    ensures NeverFails(AnswersOf(REPLIES))
  {
    PlainReply();
  }

  lemma AdmittedKeepsEveryHit(moves: seq<Move>, answer: Answerer, m: nat, n: nat, ttl: real, start: real, d: real,
                              k: nat)
    requires 1 <= m <= n && k <= 1 && d < ttl && Admitted(moves, start, d, k)
    ensures KeepsEveryHit(moves, answer, m, n, ttl)
  {
    AtOnceMore(moves, k, 1);
    ShortSpanIsFresh(moves, answer, n, ttl, start);
    FreshCacheKeepsEveryHit(moves, answer, m, n, ttl, start);
  }

  /**
   * Every run of the clients of a shared cache that is over within `d` and never has more than `k` of their
   * operations in progress at a time finds every hit of a cache of capacity `m` in one of capacity `n` as
   * well, if and only if `k` is at most 1 and `d` is shorter than the time to live.
   */
  lemma LargerCacheKeepsEveryChatHitIff(m: nat, n: nat, k: nat, ttl: real, d: real)
    requires 1 <= m < n && k >= 1 && ttl > 0.0 && d >= 0.0
    ensures (forall moves, provider, start :: Admitted(moves, start, d, k) ==>
                                                KeepsEveryHit(moves, AnswersOf(provider), m, n, ttl))
            <==> k <= 1 && d < ttl
  {
    if k <= 1 && d < ttl {
      forall moves, provider, start | Admitted(moves, start, d, k)
        ensures KeepsEveryHit(moves, AnswersOf(provider), m, n, ttl)
      {
        AdmittedKeepsEveryHit(moves, AnswersOf(provider), m, n, ttl, start, d, k);
      }
    } else {
      RepliesNeverFail();
      if k >= 2 {
        OverlapAdmitted(m, n, d, k);
        OverlapLosesAHit(m, n, AnswersOf(REPLIES), ttl);
      } else {
        RenewalAdmitted(m, ttl, d, k);
        RenewalLosesAHit(m, n, AnswersOf(REPLIES), ttl);
      }
    }
  }
}
