/**
 * `LLMClient.chat` over a shared response cache, its cache-event log, and the rollback by cursor
 * that callers use when a reply turns out to be unusable.
 *
 * The provider is an oracle from cache keys to completions, and clock readings are parameters.
 */
module LlmClient {
  import opened Sequences
  import opened ResponseCache
  import opened Text

  datatype Completion = Reply(raw: string) | Fault(message: string)

  /** The answer of a call that finds nothing cached: fence stripped, blank answers refused. */
  function Uncached(completion: Completion): Result<string, string> {
    match completion
    case Fault(message) => Failure(message)
    case Reply(raw) =>
      var text := StripMarkdownFence(raw);
      if Strip(text) == "" then Failure("empty completion from llm") else Success(text)
  }

  // ---------------------------------------------------------------------------
  // The event log
  // ---------------------------------------------------------------------------

  datatype Status = Hit | Miss | Bypass | Failed | Discarded

  datatype CacheEvent = CacheEvent(sequence: int, status: Status, key: Key, reason: string, size: int)

  datatype Log = Log(sequence: int, history: seq<CacheEvent>, last: Option<CacheEvent>, lastKey: Key)

  const EMPTY_LOG: Log := Log(0, [], None, "")

  const HISTORY_LIMIT: nat := 64

  function LastOf(events: seq<CacheEvent>, n: nat): seq<CacheEvent> {
    if |events| > n then events[|events| - n..] else events
  }

  function Record(log: Log, status: Status, key: Key, reason: string, size: nat): Log {
    var event := CacheEvent(log.sequence + 1, status, key, Strip(reason), size);
    Log(log.sequence + 1, LastOf(log.history + [event], HISTORY_LIMIT), Some(event), key)
  }

  function IsAfter(sequence: int): CacheEvent -> bool {
    (e: CacheEvent) => e.sequence > (if sequence < 0 then 0 else sequence)
  }

  function EventsSince(log: Log, sequence: int): seq<CacheEvent> {
    Filter(log.history, IsAfter(sequence))
  }

  /** `all` is every event recorded since the log was last cleared; the log shows its tail. */
  ghost predicate Refines(log: Log, all: seq<CacheEvent>) {
    && log.sequence == |all|
    && (forall i :: 0 <= i < |all| ==> all[i].sequence == i + 1)
    && log.history == LastOf(all, HISTORY_LIMIT)
    && log.last == (if all == [] then None else Some(all[|all| - 1]))
  }

  /** Recording keeps the last min(64, total) events, numbered without a gap. */
  lemma RecordRefines(log: Log, all: seq<CacheEvent>, status: Status, key: Key, reason: string, size: nat)
    requires Refines(log, all)
    ensures var event := CacheEvent(|all| + 1, status, key, Strip(reason), size);
            Refines(Record(log, status, key, reason, size), all + [event])
  {
    var event := CacheEvent(|all| + 1, status, key, Strip(reason), size);
    if |all| >= HISTORY_LIMIT {
      assert all[|all| - HISTORY_LIMIT..] + [event] == (all + [event])[|all| - HISTORY_LIMIT..];
    }
    assert log.history + [event] == LastOf(all, HISTORY_LIMIT) + [event];
    assert LastOf(log.history + [event], HISTORY_LIMIT) == LastOf(all + [event], HISTORY_LIMIT);
  }

  /** What the history of a refined log looks like without mentioning the full record. */
  lemma HistoryIsContiguousTail(log: Log, all: seq<CacheEvent>)
    requires Refines(log, all)
    ensures |log.history| == if log.sequence < HISTORY_LIMIT then log.sequence else HISTORY_LIMIT
    ensures forall i :: 0 <= i < |log.history| ==>
              log.history[i].sequence == log.sequence - |log.history| + i + 1
  {
  }

  /** A cursor at most 64 events old still sees every event recorded after it. */
  lemma RecentCursorSeesAll(log: Log, all: seq<CacheEvent>, cursor: nat)
    requires Refines(log, all) && cursor <= |all| && |all| - cursor <= HISTORY_LIMIT
    ensures EventsSince(log, cursor) == all[cursor..]
  {
    var h, skip := log.history, cursor - (|all| - |log.history|);
    HistoryIsContiguousTail(log, all);
    FilterTail(h, IsAfter(cursor), skip);
    assert h[skip..] == all[cursor..];
  }

  // ---------------------------------------------------------------------------
  // The client operations on a cache and a log
  // ---------------------------------------------------------------------------

  datatype Settings = Settings(enabled: bool, maxSize: nat, ttlSeconds: real)

  datatype View = View(entries: Entries, log: Log)

  /** The four clock readings of one `chat`. */
  datatype ChatTimes = ChatTimes(lookup: real, purge: real, store: real, size: real)

  /** `_set_cache_event`: asking the cache for its size purges it first. */
  function Emit(v: View, status: Status, key: Key, reason: string, now: real): View {
    var entries := Purge(v.entries, now);
    View(entries, Record(v.log, status, key, reason, |entries|))
  }

  /** What a chat does to the cache before it records its event, the event's status and reason, and the answer. */
  datatype Effect = Effect(entries: Entries, status: Status, reason: string, answer: Result<string, string>)

  /** `answer` is what the provider would say. */
  function ChatEffect(s: Entries, settings: Settings, key: Key, answer: Result<string, string>, t: ChatTimes): Effect {
    if settings.enabled && GetHit(s, key, t.lookup).Some? then
      Effect(AfterGet(s, key, t.lookup), Hit, "cache_hit", Success(GetHit(s, key, t.lookup).value.value))
    else
      AskEffect(if settings.enabled then AfterGet(s, key, t.lookup) else s, settings, key, answer, t)
  }

  /** The part of a chat that asks the provider, once nothing was found. */
  function AskEffect(s: Entries, settings: Settings, key: Key, answer: Result<string, string>, t: ChatTimes): Effect {
    match answer
    case Failure(message) => Effect(s, Failed, message, answer)
    case Success(text) =>
      if settings.enabled then
        Effect(AfterPut(s, key, text, t.purge, t.store, settings.maxSize, settings.ttlSeconds), Miss, "cache_store",
               answer)
      else
        Effect(s, Bypass, "cache_disabled", answer)
  }

  function Emitted(v: View, key: Key, effect: Effect, t: ChatTimes): View {
    Emit(v.(entries := effect.entries), effect.status, key, effect.reason, t.size)
  }

  function ChatOutcome(v: View, settings: Settings, key: Key, completion: Completion, t: ChatTimes)
    : (View, Result<string, string>)
  {
    var effect := ChatEffect(v.entries, settings, key, Uncached(completion), t);
    (Emitted(v, key, effect, t), effect.answer)
  }

  predicate UsesCache(e: CacheEvent) {
    e.status.Hit? || e.status.Miss?
  }

  /** Discard the key of an event that hit or stored it, recording the discard if there was an entry. */
  function DiscardOne(v: View, e: CacheEvent, reason: string, now: real): (View, bool) {
    if UsesCache(e) && e.key in Keys(v.entries) then
      (Emit(v.(entries := Without(v.entries, e.key)), Discarded, e.key, reason, now), true)
    else
      (v, false)
  }

  /** Discard along a list of events; `clock(i)` is read after the i-th removal. */
  function DiscardAll(v: View, events: seq<CacheEvent>, reason: string, clock: nat -> real, removed: nat): (View, nat)
    decreases |events|
  {
    if events == [] then (v, removed)
    else
      var (v', gone) := DiscardOne(v, events[0], reason, clock(removed));
      DiscardAll(v', events[1..], reason, clock, if gone then removed + 1 else removed)
  }

  function DiscardSince(v: View, cursor: int, reason: string, clock: nat -> real): (View, nat) {
    DiscardAll(v, EventsSince(v.log, cursor), reason, clock, 0)
  }

  function DiscardLast(v: View, reason: string, now: real): (View, bool) {
    if v.log.lastKey == "" then (v, false)
    else
      var key := v.log.lastKey;
      var removed := key in Keys(v.entries);
      var v' := if removed then Emit(v.(entries := Without(v.entries, key)), Discarded, key, reason, now) else v;
      (v'.(log := v'.log.(lastKey := "")), removed)
  }

  function ClearCache(v: View): View {
    View([], EMPTY_LOG)
  }

  // ---------------------------------------------------------------------------
  // Transparency
  // ---------------------------------------------------------------------------

  type Provider = Key -> Completion

  /** The answer to a call that finds nothing cached. */
  type Answerer = Key -> Result<string, string>

  function AnswersOf(provider: Provider): Answerer {
    (key: Key) => Uncached(provider(key))
  }

  /** Every cached value is the answer for its key. */
  ghost predicate Answered(s: Entries, answer: Answerer) {
    forall e :: e in s ==> answer(e.key) == Success(e.value)
  }

  lemma AnsweredStep(s: Entries, op: Op, cap: nat, ttl: real, answer: Answerer)
    requires Answered(s, answer) && (op.Put? ==> answer(op.key) == Success(op.value))
    ensures Answered(Apply(s, op, cap, ttl), answer)
  {
    forall e | e in Apply(s, op, cap, ttl)
      ensures answer(e.key) == Success(e.value)
    {
      StepOrigin(s, op, cap, ttl, e);
    }
  }

  /** Every cached value is the answer an uncached call would give. */
  ghost predicate Faithful(s: Entries, provider: Provider) {
    Answered(s, AnswersOf(provider))
  }

  /** Only the provider's own answers are stored. */
  ghost predicate StoresAnswers(op: Op, provider: Provider) {
    op.Put? ==> Uncached(provider(op.key)) == Success(op.value)
  }

  lemma FaithfulStep(s: Entries, op: Op, cap: nat, ttl: real, provider: Provider)
    requires Faithful(s, provider) && StoresAnswers(op, provider)
    ensures Faithful(Apply(s, op, cap, ttl), provider)
  {
    AnsweredStep(s, op, cap, ttl, AnswersOf(provider));
  }

  /**
   * The cache is only touched under its lock, one operation at a time, so a run of operations is
   * any interleaving of any number of clients: each of its states is faithful.
   */
  lemma {:induction false} EveryInterleavingIsFaithful(ops: seq<Op>, cap: nat, ttl: real, provider: Provider)
    requires forall op :: op in ops ==> StoresAnswers(op, provider)
    ensures Faithful(Run([], ops, cap, ttl), provider)
  {
    if ops == [] {
    } else {
      EveryInterleavingIsFaithful(ops[..|ops| - 1], cap, ttl, provider);
      FaithfulStep(Run([], ops[..|ops| - 1], cap, ttl), ops[|ops| - 1], cap, ttl, provider);
    }
  }

  /** On a faithful cache `chat` answers as the uncached call does, and leaves the cache faithful. */
  lemma ChatIsTransparent(v: View, settings: Settings, key: Key, t: ChatTimes, provider: Provider)
    requires Faithful(v.entries, provider)
    ensures ChatOutcome(v, settings, key, provider(key), t).1 == Uncached(provider(key))
    ensures Faithful(ChatOutcome(v, settings, key, provider(key), t).0.entries, provider)
  {
    var cap, ttl := settings.maxSize, settings.ttlSeconds;
    FaithfulStep(v.entries, Get(key, t.lookup), cap, ttl, provider);
    var looked := AfterGet(v.entries, key, t.lookup);
    if Uncached(provider(key)).Success? {
      var put := Put(key, Uncached(provider(key)).value, t.purge, t.store);
      FaithfulStep(looked, put, cap, ttl, provider);
    }
  }

  datatype ClientOp =
    | ChatOp(key: Key, times: ChatTimes)
    | RollbackOp(cursor: int, clock: nat -> real)
    | DiscardLastOp(now: real)
    | ClearOp

  /** Clients with identical settings share one cache and keep a log each. */
  datatype World = World(entries: Entries, logs: map<nat, Log>)

  function ViewOf(w: World, client: nat): View {
    View(w.entries, if client in w.logs then w.logs[client] else EMPTY_LOG)
  }

  function StepView(v: View, op: ClientOp, settings: Settings, provider: Provider): View {
    match op
    case ChatOp(key, times) => ChatOutcome(v, settings, key, provider(key), times).0
    case RollbackOp(cursor, clock) => DiscardSince(v, cursor, BY_CALLER, clock).0
    case DiscardLastOp(now) => DiscardLast(v, BY_CALLER, now).0
    case ClearOp => ClearCache(v)
  }

  function StepWorld(w: World, client: nat, op: ClientOp, settings: Settings, provider: Provider): World {
    var v := StepView(ViewOf(w, client), op, settings, provider);
    World(v.entries, w.logs[client := v.log])
  }

  function RunWorld(ops: seq<(nat, ClientOp)>, settings: Settings, provider: Provider): World {
    if ops == [] then World([], map[])
    else
      var last := ops[|ops| - 1];
      StepWorld(RunWorld(ops[..|ops| - 1], settings, provider), last.0, last.1, settings, provider)
  }

  // ---------------------------------------------------------------------------
  // Chats whose steps interleave
  // ---------------------------------------------------------------------------

  /**
   * The locked steps of clients on one enabled cache: a chat looks its key up, and after a miss completes
   * when the provider has answered; sizes are asked for, keys discarded and the cache cleared in between.
   */
  datatype Move =
    | LookUp(client: nat, key: Key, now: real)
    | Complete(client: nat, purge: real, store: real)
    | Touch(op: Op)

  /** The cache, the keys that clients are asking the provider for, and the answers given so far. */
  datatype Traffic = Traffic(entries: Entries, asking: map<nat, Key>, answers: seq<(Key, Result<string, string>)>)

  function DoLookUp(s: Traffic, client: nat, key: Key, now: real): Traffic {
    if client in s.asking then s
    else
      var entries := AfterGet(s.entries, key, now);
      match GetHit(s.entries, key, now)
      case Some(e) => s.(entries := entries, answers := s.answers + [(key, Success(e.value))])
      case None => s.(entries := entries, asking := s.asking[client := key])
  }

  function DoComplete(s: Traffic, client: nat, purge: real, store: real, settings: Settings, answer: Answerer)
    : Traffic
  {
    if client !in s.asking then s
    else
      var key := s.asking[client];
      var entries := match answer(key)
                     case Failure(_) => s.entries
                     case Success(text) =>
                       AfterPut(s.entries, key, text, purge, store, settings.maxSize, settings.ttlSeconds);
      Traffic(entries, s.asking - {client}, s.answers + [(key, answer(key))])
  }

  /** A move that is not possible changes nothing; `Touch` neither looks up nor stores. */
  function DoMove(s: Traffic, move: Move, settings: Settings, answer: Answerer): Traffic {
    match move
    case LookUp(client, key, now) => DoLookUp(s, client, key, now)
    case Complete(client, purge, store) => DoComplete(s, client, purge, store, settings, answer)
    case Touch(op) =>
      if op.Get? || op.Put? then s
      else s.(entries := Apply(s.entries, op, settings.maxSize, settings.ttlSeconds))
  }

  function RunMoves(moves: seq<Move>, settings: Settings, answer: Answerer): Traffic {
    if moves == [] then Traffic([], map[], [])
    else DoMove(RunMoves(moves[..|moves| - 1], settings, answer), moves[|moves| - 1], settings, answer)
  }

  /** Every answer given is the one the uncached call would give. */
  ghost predicate Truthful(answers: seq<(Key, Result<string, string>)>, answer: Answerer) {
    forall i :: 0 <= i < |answers| ==> answers[i].1 == answer(answers[i].0)
  }

  lemma LookUpIsTruthful(s: Traffic, client: nat, key: Key, now: real, settings: Settings, answer: Answerer)
    requires Answered(s.entries, answer) && Truthful(s.answers, answer)
    ensures var s' := DoLookUp(s, client, key, now);
            Answered(s'.entries, answer) && Truthful(s'.answers, answer)
  {
    AnsweredStep(s.entries, Get(key, now), settings.maxSize, settings.ttlSeconds, answer);
  }

  lemma CompleteIsTruthful(s: Traffic, client: nat, purge: real, store: real, settings: Settings, answer: Answerer)
    requires Answered(s.entries, answer) && Truthful(s.answers, answer)
    ensures var s' := DoComplete(s, client, purge, store, settings, answer);
            Answered(s'.entries, answer) && Truthful(s'.answers, answer)
  {
    if client in s.asking && answer(s.asking[client]).Success? {
      var put := Put(s.asking[client], answer(s.asking[client]).value, purge, store);
      AnsweredStep(s.entries, put, settings.maxSize, settings.ttlSeconds, answer);
    }
  }

  lemma MoveIsTruthful(s: Traffic, move: Move, settings: Settings, answer: Answerer)
    requires Answered(s.entries, answer) && Truthful(s.answers, answer)
    ensures var s' := DoMove(s, move, settings, answer);
            Answered(s'.entries, answer) && Truthful(s'.answers, answer)
  {
    match move
    case LookUp(client, key, now) => LookUpIsTruthful(s, client, key, now, settings, answer);
    case Complete(client, purge, store) => CompleteIsTruthful(s, client, purge, store, settings, answer);
    case Touch(op) =>
      if !op.Get? && !op.Put? {
        AnsweredStep(s.entries, op, settings.maxSize, settings.ttlSeconds, answer);
      }
  }

  lemma {:induction false} RunIsTruthful(moves: seq<Move>, settings: Settings, answer: Answerer)
    ensures Answered(RunMoves(moves, settings, answer).entries, answer)
    ensures Truthful(RunMoves(moves, settings, answer).answers, answer)
  {
    if moves == [] {
    } else {
      RunIsTruthful(moves[..|moves| - 1], settings, answer);
      MoveIsTruthful(RunMoves(moves[..|moves| - 1], settings, answer), moves[|moves| - 1], settings, answer);
    }
  }

  /** However the steps of chats of any number of clients interleave, every chat answers as the uncached call would. */
  lemma InterleavedChatsAreTransparent(moves: seq<Move>, settings: Settings, provider: Provider)
    ensures var s := RunMoves(moves, settings, AnswersOf(provider));
            && Faithful(s.entries, provider)
            && forall i :: 0 <= i < |s.answers| ==> s.answers[i].1 == Uncached(provider(s.answers[i].0))
  {
    RunIsTruthful(moves, settings, AnswersOf(provider));
  }

  // A provider may also answer differently each time: what it says is part of the move.

  function RunSaid(moves: seq<(Move, Answerer)>, settings: Settings): Traffic {
    if moves == [] then Traffic([], map[], [])
    else
      var last := moves[|moves| - 1];
      DoMove(RunSaid(moves[..|moves| - 1], settings), last.0, settings, last.1)
  }

  /** The text of the last completed chat that stored the key, unless the key was discarded or cleared since. */
  function LastText(moves: seq<(Move, Answerer)>, settings: Settings, key: Key): Option<string> {
    if moves == [] then None
    else
      var front, last := moves[..|moves| - 1], moves[|moves| - 1];
      var before := LastText(front, settings, key);
      match last.0
      case LookUp(_, _, _) => before
      case Complete(client, _, _) =>
        var asking := RunSaid(front, settings).asking;
        if client in asking && asking[client] == key && last.1(key).Success? then Some(last.1(key).value) else before
      case Touch(op) => if op.Clear? || (op.Discard? && op.key == key) then None else before
  }

  /** What a move leaves in the cache was there before, or was stored by it. */
  lemma MoveOrigin(s: Traffic, move: Move, settings: Settings, answer: Answerer, e: Entry)
    requires e in DoMove(s, move, settings, answer).entries
    ensures || (e in s.entries && !(move.Touch? && (move.op.Clear? || (move.op.Discard? && move.op.key == e.key)))
                && !(move.Complete? && move.client in s.asking && s.asking[move.client] == e.key
                     && answer(e.key).Success?))
            || (move.Complete? && move.client in s.asking && s.asking[move.client] == e.key
                && answer(e.key) == Success(e.value))
  {
    var cap, ttl := settings.maxSize, settings.ttlSeconds;
    match move
    case LookUp(client, key, now) =>
      if client !in s.asking {
        StepOrigin(s.entries, Get(key, now), cap, ttl, e);
      }
    case Complete(client, purge, store) =>
      if client in s.asking && answer(s.asking[client]).Success? {
        StepOrigin(s.entries, Put(s.asking[client], answer(s.asking[client]).value, purge, store), cap, ttl, e);
      }
    case Touch(op) =>
      if !op.Get? && !op.Put? {
        StepOrigin(s.entries, op, cap, ttl, e);
      }
  }

  lemma {:induction false} CachedIsLastText(moves: seq<(Move, Answerer)>, settings: Settings, e: Entry)
    requires e in RunSaid(moves, settings).entries
    ensures LastText(moves, settings, e.key) == Some(e.value)
  {
    var front, last := moves[..|moves| - 1], moves[|moves| - 1];
    MoveOrigin(RunSaid(front, settings), last.0, settings, last.1, e);
    if e in RunSaid(front, settings).entries {
      CachedIsLastText(front, settings, e);
    }
  }

  /**
   * However the chats of any clients interleave, and whatever the provider says each time: a chat whose key
   * is found answers with the text of the last completed chat that stored the key.
   */
  lemma HitGivesLastText(moves: seq<(Move, Answerer)>, settings: Settings, client: nat, key: Key, now: real)
    requires var s := RunSaid(moves, settings); client !in s.asking && GetHit(s.entries, key, now).Some?
    ensures var s := RunSaid(moves, settings);
            && LastText(moves, settings, key).Some?
            && DoLookUp(s, client, key, now).answers
               == s.answers + [(key, Success(LastText(moves, settings, key).value))]
            && DoLookUp(s, client, key, now).asking == s.asking
  {
    CachedIsLastText(moves, settings, GetHit(RunSaid(moves, settings).entries, key, now).value);
  }

  // ---------------------------------------------------------------------------
  // Whole chats
  // ---------------------------------------------------------------------------

  /** An entry for the key that has not expired at the lookup answers the chat, whatever the provider would say. */
  lemma HitIsServed(v: View, settings: Settings, key: Key, completion: Completion, t: ChatTimes, e: Entry)
    requires settings.enabled && Distinct(v.entries) && e in v.entries && e.key == key && e.expiresAt > t.lookup
    ensures ChatOutcome(v, settings, key, completion, t).1 == Success(e.value)
  {
    LiveIsFound(v.entries, e, t.lookup);
  }

  lemma LiveIsFound(s: Entries, e: Entry, now: real)
    requires Distinct(s) && e in s && e.expiresAt > now
    ensures GetHit(s, e.key, now) == Some(e)
  {
    DistinctFilter(s, IsLive(now));
    assert e in Purge(s, now);
    assert e.key in Keys(Purge(s, now));
    DistinctUnique(Purge(s, now), e, GetHit(s, e.key, now).value);
  }

  /** Without such an entry the provider's answer is the chat's. */
  lemma MissIsAsked(v: View, settings: Settings, key: Key, completion: Completion, t: ChatTimes)
    requires settings.enabled ==> forall e :: e in v.entries && e.key == key ==> e.expiresAt <= t.lookup
    ensures ChatOutcome(v, settings, key, completion, t).1 == Uncached(completion)
  {
    if settings.enabled {
      ExpiredIsNotFound(v.entries, key, t.lookup);
    }
  }

  lemma ExpiredIsNotFound(s: Entries, key: Key, now: real)
    requires forall e :: e in s && e.key == key ==> e.expiresAt <= now
    ensures GetHit(s, key, now).None?
  {
  }

  lemma ChatAnswers(v: View, settings: Settings, key: Key, completion: Completion, t: ChatTimes)
    requires Distinct(v.entries)
    ensures settings.enabled ==>
              forall e :: e in v.entries && e.key == key && e.expiresAt > t.lookup ==>
                ChatOutcome(v, settings, key, completion, t).1 == Success(e.value)
    ensures (settings.enabled ==> forall e :: e in v.entries && e.key == key ==> e.expiresAt <= t.lookup) ==>
              ChatOutcome(v, settings, key, completion, t).1 == Uncached(completion)
  {
    HitsAnswer(v, settings, key, completion, t);
    if settings.enabled ==> forall e :: e in v.entries && e.key == key ==> e.expiresAt <= t.lookup {
      MissIsAsked(v, settings, key, completion, t);
    }
  }

  lemma HitsAnswer(v: View, settings: Settings, key: Key, completion: Completion, t: ChatTimes)
    requires Distinct(v.entries)
    ensures settings.enabled ==>
              forall e :: e in v.entries && e.key == key && e.expiresAt > t.lookup ==>
                ChatOutcome(v, settings, key, completion, t).1 == Success(e.value)
  {
    forall e | settings.enabled && e in v.entries && e.key == key && e.expiresAt > t.lookup
      ensures ChatOutcome(v, settings, key, completion, t).1 == Success(e.value)
    {
      HitIsServed(v, settings, key, completion, t, e);
    }
  }

  ghost predicate HasLive(s: Entries, key: Key, now: real) {
    exists e :: e in s && e.key == key && e.expiresAt > now
  }

  lemma FoundIff(s: Entries, key: Key, now: real)
    ensures GetHit(s, key, now).Some? <==> HasLive(s, key, now)
  {
    if e :| e in s && e.key == key && e.expiresAt > now {
      assert e in Purge(s, now);
    }
  }

  /** The status and the reason of a chat's event, by what was cached and what the provider said. */
  ghost predicate ReportedAs(e: CacheEvent, found: bool, enabled: bool, answer: Result<string, string>) {
    if found then e.status == Hit && e.reason == "cache_hit"
    else match answer
      case Failure(message) => e.status == Failed && e.reason == Strip(message)
      case Success(_) =>
        if enabled then e.status == Miss && e.reason == "cache_store"
        else e.status == Bypass && e.reason == "cache_disabled"
  }

  lemma ReasonsAreTrimmed()
    ensures Strip("cache_hit") == "cache_hit" && Strip("cache_store") == "cache_store"
    ensures Strip("cache_disabled") == "cache_disabled"
  {
    StripKeeps("cache_hit");
    StripKeeps("cache_store");
    StripKeeps("cache_disabled");
  }

  lemma EffectIsReported(s: Entries, settings: Settings, key: Key, answer: Result<string, string>, t: ChatTimes,
                         e: CacheEvent)
    requires var effect := ChatEffect(s, settings, key, answer, t);
             e.status == effect.status && e.reason == Strip(effect.reason)
    ensures ReportedAs(e, settings.enabled && HasLive(s, key, t.lookup), settings.enabled, answer)
  {
    FoundIff(s, key, t.lookup);
    ReasonsAreTrimmed();
  }

  /** A chat records one event: its number, key, status, reason, and the size of the cache after it. */
  lemma ChatIsReported(v: View, settings: Settings, key: Key, completion: Completion, t: ChatTimes)
    ensures var v' := ChatOutcome(v, settings, key, completion, t).0;
            && v'.log.last.Some? && v'.log.sequence == v.log.sequence + 1 && v'.log.lastKey == key
            && var e := v'.log.last.value;
               && e.sequence == v'.log.sequence && e.key == key && e.size == |v'.entries|
               && ReportedAs(e, settings.enabled && HasLive(v.entries, key, t.lookup), settings.enabled,
                             Uncached(completion))
  {
    var e := ChatOutcome(v, settings, key, completion, t).0.log.last.value;
    EffectIsReported(v.entries, settings, key, Uncached(completion), t, e);
  }

  lemma FoundChatIsItsMoves(s: Traffic, client: nat, settings: Settings, key: Key, t: ChatTimes, answer: Answerer)
    requires settings.enabled && client !in s.asking && GetHit(s.entries, key, t.lookup).Some?
    ensures var looked := DoLookUp(s, client, key, t.lookup);
            var completed := DoComplete(looked, client, t.purge, t.store, settings, answer);
            var effect := ChatEffect(s.entries, settings, key, answer(key), t);
            completed == Traffic(effect.entries, s.asking, s.answers + [(key, effect.answer)])
  {
  }

  lemma AskedChatIsItsMoves(s: Traffic, client: nat, settings: Settings, key: Key, t: ChatTimes, answer: Answerer)
    requires settings.enabled && client !in s.asking && GetHit(s.entries, key, t.lookup).None?
    ensures var looked := DoLookUp(s, client, key, t.lookup);
            var completed := DoComplete(looked, client, t.purge, t.store, settings, answer);
            var effect := ChatEffect(s.entries, settings, key, answer(key), t);
            completed == Traffic(effect.entries, s.asking, s.answers + [(key, effect.answer)])
  {
    assert s.asking[client := key] - {client} == s.asking;
  }

  /** A chat that nothing interrupts is its moves: it looks up and completes; the size is asked for after that. */
  lemma ChatIsItsMoves(s: Traffic, client: nat, settings: Settings, key: Key, t: ChatTimes, answer: Answerer)
    requires settings.enabled && client !in s.asking
    ensures var looked := DoLookUp(s, client, key, t.lookup);
            var completed := DoComplete(looked, client, t.purge, t.store, settings, answer);
            var effect := ChatEffect(s.entries, settings, key, answer(key), t);
            completed == Traffic(effect.entries, s.asking, s.answers + [(key, effect.answer)])
  {
    if GetHit(s.entries, key, t.lookup).Some? {
      FoundChatIsItsMoves(s, client, settings, key, t, answer);
    } else {
      AskedChatIsItsMoves(s, client, settings, key, t, answer);
    }
  }

  lemma {:induction false} DiscardAllOnlyRemoves(v: View, events: seq<CacheEvent>, reason: string, clock: nat -> real,
                                                 removed: nat)
    ensures forall e :: e in DiscardAll(v, events, reason, clock, removed).0.entries ==> e in v.entries
    decreases |events|
  {
    if events == [] {
    } else {
      var (v', gone) := DiscardOne(v, events[0], reason, clock(removed));
      DiscardAllOnlyRemoves(v', events[1..], reason, clock, if gone then removed + 1 else removed);
    }
  }

  lemma FaithfulStepView(v: View, op: ClientOp, settings: Settings, provider: Provider)
    requires Faithful(v.entries, provider)
    ensures Faithful(StepView(v, op, settings, provider).entries, provider)
  {
    match op
    case ChatOp(key, times) => ChatIsTransparent(v, settings, key, times, provider);
    case RollbackOp(cursor, clock) =>
      DiscardAllOnlyRemoves(v, EventsSince(v.log, cursor), BY_CALLER, clock, 0);
    case DiscardLastOp(now) =>
    case ClearOp =>
  }

  lemma {:induction false} SharedCacheIsFaithful(ops: seq<(nat, ClientOp)>, settings: Settings, provider: Provider)
    ensures Faithful(RunWorld(ops, settings, provider).entries, provider)
  {
    if ops == [] {
    } else {
      var front, last := ops[..|ops| - 1], ops[|ops| - 1];
      SharedCacheIsFaithful(front, settings, provider);
      FaithfulStepView(ViewOf(RunWorld(front, settings, provider), last.0), last.1, settings, provider);
    }
  }

  /** Whatever the clients sharing a cache did before, a chat answers as the uncached call would. */
  lemma SharedChatIsTransparent(ops: seq<(nat, ClientOp)>, client: nat, key: Key, times: ChatTimes,
                                settings: Settings, provider: Provider)
    ensures ChatOutcome(ViewOf(RunWorld(ops, settings, provider), client), settings, key, provider(key), times).1
         == Uncached(provider(key))
  {
    SharedCacheIsFaithful(ops, settings, provider);
    ChatIsTransparent(ViewOf(RunWorld(ops, settings, provider), client), settings, key, times, provider);
  }

  // ---------------------------------------------------------------------------
  // What a client recorded
  // ---------------------------------------------------------------------------

  /** The event a chat records, the n-th before it being the last. */
  function ChatEvent(s: Entries, n: nat, settings: Settings, key: Key, completion: Completion, t: ChatTimes)
    : CacheEvent
  {
    var effect := ChatEffect(s, settings, key, Uncached(completion), t);
    CacheEvent(n + 1, effect.status, key, Strip(effect.reason), |Purge(effect.entries, t.size)|)
  }

  function DiscardEvent(s: Entries, n: nat, key: Key, reason: string, now: real): CacheEvent {
    CacheEvent(n + 1, Discarded, key, Strip(reason), |Purge(Without(s, key), now)|)
  }

  /** The events that discarding along a list records: one for every key that is still cached. */
  function DiscardEvents(s: Entries, n: nat, events: seq<CacheEvent>, reason: string, clock: nat -> real, removed: nat)
    : seq<CacheEvent>
    decreases |events|
  {
    if events == [] then []
    else
      var e, now := events[0], clock(removed);
      if UsesCache(e) && e.key in Keys(s) then
        [DiscardEvent(s, n, e.key, reason, now)] +
        DiscardEvents(Purge(Without(s, e.key), now), n + 1, events[1..], reason, clock, removed + 1)
      else DiscardEvents(s, n, events[1..], reason, clock, removed)
  }

  const BY_CALLER: string := "discarded_by_caller"

  function LastDiscard(v: View, n: nat, now: real): seq<CacheEvent> {
    var key := v.log.lastKey;
    if key != "" && key in Keys(v.entries) then [DiscardEvent(v.entries, n, key, BY_CALLER, now)] else []
  }

  /** The events that an operation other than a clear records. */
  function EventsOf(v: View, n: nat, op: ClientOp, settings: Settings, provider: Provider): seq<CacheEvent> {
    match op
    case ChatOp(key, times) => [ChatEvent(v.entries, n, settings, key, provider(key), times)]
    case RollbackOp(cursor, clock) => DiscardEvents(v.entries, n, EventsSince(v.log, cursor), BY_CALLER, clock, 0)
    case DiscardLastOp(now) => LastDiscard(v, n, now)
    case ClearOp => []
  }

  /** Everything the client recorded in the run, since it last cleared its log. */
  function Recorded(ops: seq<(nat, ClientOp)>, client: nat, settings: Settings, provider: Provider): seq<CacheEvent> {
    if ops == [] then []
    else
      var front, last := ops[..|ops| - 1], ops[|ops| - 1];
      var before := Recorded(front, client, settings, provider);
      if last.0 != client then before
      else if last.1.ClearOp? then []
      else before + EventsOf(ViewOf(RunWorld(front, settings, provider), client), |before|, last.1, settings, provider)
  }

  lemma {:induction false} DiscardAllRecords(v: View, all: seq<CacheEvent>, events: seq<CacheEvent>, reason: string,
                                             clock: nat -> real, removed: nat)
    requires Refines(v.log, all)
    ensures Refines(DiscardAll(v, events, reason, clock, removed).0.log,
                    all + DiscardEvents(v.entries, |all|, events, reason, clock, removed))
    decreases |events|
  {
    if events == [] {
      assert all + [] == all;
    } else {
      var e, now := events[0], clock(removed);
      var step := DiscardOne(v, e, reason, now);
      if step.1 {
        var event := DiscardEvent(v.entries, |all|, e.key, reason, now);
        RecordRefines(v.log, all, Discarded, e.key, reason, event.size);
        DiscardAllRecords(step.0, all + [event], events[1..], reason, clock, removed + 1);
        ConcatAssociates(all, [event],
                         DiscardEvents(step.0.entries, |all| + 1, events[1..], reason, clock, removed + 1));
      } else {
        DiscardAllRecords(v, all, events[1..], reason, clock, removed);
      }
    }
  }

  lemma DiscardLastRecords(v: View, all: seq<CacheEvent>, now: real)
    requires Refines(v.log, all)
    ensures Refines(DiscardLast(v, BY_CALLER, now).0.log, all + LastDiscard(v, |all|, now))
  {
    var key := v.log.lastKey;
    if key != "" && key in Keys(v.entries) {
      RecordRefines(v.log, all, Discarded, key, BY_CALLER, |Purge(Without(v.entries, key), now)|);
    } else {
      assert all + [] == all;
    }
  }

  /** Every operation but a clear appends its own events to the record. */
  lemma StepRecords(v: View, all: seq<CacheEvent>, op: ClientOp, settings: Settings, provider: Provider)
    requires Refines(v.log, all)
    ensures Refines(StepView(v, op, settings, provider).log,
                    if op.ClearOp? then [] else all + EventsOf(v, |all|, op, settings, provider))
  {
    match op
    case ChatOp(key, times) => ChatRecordsOneEvent(v, all, settings, key, provider(key), times);
    case RollbackOp(cursor, clock) => DiscardAllRecords(v, all, EventsSince(v.log, cursor), BY_CALLER, clock, 0);
    case DiscardLastOp(now) => DiscardLastRecords(v, all, now);
    case ClearOp =>
  }

  /** In every run of clients sharing a cache, each log is the tail of what its client recorded. */
  lemma {:induction false} EveryLogIsATail(ops: seq<(nat, ClientOp)>, client: nat, settings: Settings,
                                           provider: Provider)
    ensures Refines(ViewOf(RunWorld(ops, settings, provider), client).log, Recorded(ops, client, settings, provider))
  {
    if ops == [] {
    } else {
      var front, last := ops[..|ops| - 1], ops[|ops| - 1];
      EveryLogIsATail(front, client, settings, provider);
      if last.0 == client {
        StepRecords(ViewOf(RunWorld(front, settings, provider), client), Recorded(front, client, settings, provider),
                    last.1, settings, provider);
      }
    }
  }

  // ---------------------------------------------------------------------------
  // Rollback by cursor
  // ---------------------------------------------------------------------------

  /** No key that an event from `cursor` on hit or stored is in the cache. */
  ghost predicate RolledBack(entries: Entries, all: seq<CacheEvent>, cursor: nat)
    requires cursor <= |all|
  {
    forall e :: e in all[cursor..] && UsesCache(e) ==> e.key !in Keys(entries)
  }

  lemma DiscardOneRemoves(v: View, e: CacheEvent, reason: string, now: real)
    ensures UsesCache(e) ==> e.key !in Keys(DiscardOne(v, e, reason, now).0.entries)
  {
  }

  lemma DiscardAllShrinks(v: View, events: seq<CacheEvent>, reason: string, clock: nat -> real, removed: nat)
    ensures Keys(DiscardAll(v, events, reason, clock, removed).0.entries) <= Keys(v.entries)
  {
    DiscardAllOnlyRemoves(v, events, reason, clock, removed);
  }

  lemma {:induction false} DiscardAllRemoves(v: View, events: seq<CacheEvent>, reason: string, clock: nat -> real,
                                             removed: nat, i: nat)
    requires i < |events| && UsesCache(events[i])
    ensures events[i].key !in Keys(DiscardAll(v, events, reason, clock, removed).0.entries)
    decreases |events|
  {
    var step := DiscardOne(v, events[0], reason, clock(removed));
    var removed' := if step.1 then removed + 1 else removed;
    var rest := events[1..];
    assert DiscardAll(v, events, reason, clock, removed) == DiscardAll(step.0, rest, reason, clock, removed');
    if i == 0 {
      DiscardOneRemoves(v, events[0], reason, clock(removed));
      DiscardAllShrinks(step.0, rest, reason, clock, removed');
    } else {
      assert rest[i - 1] == events[i];
      DiscardAllRemoves(step.0, rest, reason, clock, removed', i - 1);
    }
  }

  /** At most 64 events after the cursor: everything hit or stored since is gone. */
  lemma RollbackRemovesAll(v: View, all: seq<CacheEvent>, cursor: nat, reason: string, clock: nat -> real)
    requires Refines(v.log, all) && cursor <= |all| && |all| - cursor <= HISTORY_LIMIT
    ensures RolledBack(DiscardSince(v, cursor, reason, clock).0.entries, all, cursor)
  {
    RecentCursorSeesAll(v.log, all, cursor);
    forall e | e in all[cursor..] && UsesCache(e)
      ensures e.key !in Keys(DiscardSince(v, cursor, reason, clock).0.entries)
    {
      var i :| 0 <= i < |all[cursor..]| && all[cursor..][i] == e;
      DiscardAllRemoves(v, all[cursor..], reason, clock, 0, i);
    }
  }

  /** Some of the events was a hit or a store of the key. */
  ghost predicate ChattedKey(events: seq<CacheEvent>, key: Key) {
    exists i :: 0 <= i < |events| && (events[i].status == Hit || events[i].status == Miss) && events[i].key == key
  }

  lemma ChattedFirst(events: seq<CacheEvent>, key: Key)
    requires events != []
    ensures ChattedKey(events, key)
       <==> (UsesCache(events[0]) && events[0].key == key) || ChattedKey(events[1..], key)
  {
    if i :| 1 <= i < |events| && UsesCache(events[i]) && events[i].key == key {
      assert events[1..][i - 1] == events[i];
    }
  }

  lemma WithoutOne(s: Entries, key: Key)
    requires Distinct(s) && key in Keys(s)
    ensures |Without(s, key)| == |s| - 1 && Distinct(Without(s, key))
  {
    var kept := Without(s, key);
    DistinctFilter(s, IsNot(key));
    DistinctKeysSize(s);
    DistinctKeysSize(kept);
    assert Keys(s) == Keys(kept) + {key};
    assert key !in Keys(kept);
  }

  /** Nothing in the cache expires while the rollback runs. */
  ghost predicate Outlives(s: Entries, clock: nat -> real) {
    forall e, n :: e in s ==> e.expiresAt > clock(n)
  }

  lemma DiscardOneIsExact(v: View, e: CacheEvent, reason: string, clock: nat -> real, n: nat)
    requires Distinct(v.entries) && Outlives(v.entries, clock)
    ensures var (v', gone) := DiscardOne(v, e, reason, clock(n));
            && Distinct(v'.entries) && Outlives(v'.entries, clock)
            && |v'.entries| == |v.entries| - (if gone then 1 else 0)
            && forall x :: x in v'.entries <==> x in v.entries && !(UsesCache(e) && x.key == e.key)
  {
    if UsesCache(e) && e.key in Keys(v.entries) {
      WithoutOne(v.entries, e.key);
      FilterAll(Without(v.entries, e.key), IsLive(clock(n)));
    }
  }

  /** Discarding along events removes exactly the keys that they hit or stored, and counts the entries removed. */
  lemma {:induction false} DiscardAllIsExact(v: View, events: seq<CacheEvent>, reason: string, clock: nat -> real,
                                             removed: nat)
    requires Distinct(v.entries) && Outlives(v.entries, clock)
    ensures var (v', n) := DiscardAll(v, events, reason, clock, removed);
            && (forall e :: e in v'.entries <==> e in v.entries && !ChattedKey(events, e.key))
            && n == removed + |v.entries| - |v'.entries|
    decreases |events|
  {
    if events == [] {
    } else {
      var (v', gone) := DiscardOne(v, events[0], reason, clock(removed));
      DiscardOneIsExact(v, events[0], reason, clock, removed);
      DiscardAllIsExact(v', events[1..], reason, clock, if gone then removed + 1 else removed);
      forall e | e in v.entries
        ensures ChattedKey(events, e.key)
           <==> (UsesCache(events[0]) && events[0].key == e.key) || ChattedKey(events[1..], e.key)
      {
        ChattedFirst(events, e.key);
      }
    }
  }

  /**
   * With at most 64 events since the cursor, and nothing expiring meanwhile, a rollback removes the keys hit or
   * stored since the cursor and no others, and returns how many entries it removed.
   */
  lemma RollbackIsExact(v: View, all: seq<CacheEvent>, cursor: nat, reason: string, clock: nat -> real)
    requires Refines(v.log, all) && cursor <= |all| && |all| - cursor <= HISTORY_LIMIT
    requires Distinct(v.entries) && Outlives(v.entries, clock)
    ensures var (v', n) := DiscardSince(v, cursor, reason, clock);
            && (forall e :: e in v'.entries <==> e in v.entries && !ChattedKey(all[cursor..], e.key))
            && n == |v.entries| - |v'.entries|
  {
    RecentCursorSeesAll(v.log, all, cursor);
    DiscardAllIsExact(v, all[cursor..], reason, clock, 0);
  }

  /** One chat records one event, carrying its key; its status says whether the cache was used. */
  lemma ChatRecordsOneEvent(v: View, all: seq<CacheEvent>, settings: Settings, key: Key, completion: Completion,
                            t: ChatTimes)
    requires Refines(v.log, all)
    ensures var event := ChatEvent(v.entries, |all|, settings, key, completion, t);
            && Refines(ChatOutcome(v, settings, key, completion, t).0.log, all + [event])
            && event.key == key
            && (UsesCache(event) <==> settings.enabled && ChatOutcome(v, settings, key, completion, t).1.Success?)
  {
    var effect := ChatEffect(v.entries, settings, key, Uncached(completion), t);
    RecordRefines(v.log, all, effect.status, key, effect.reason, |Purge(effect.entries, t.size)|);
  }

  // Over whole runs: what a client chatted since the cursor is gone after the rollback.

  ghost predicate NoClear(ops: seq<(nat, ClientOp)>, client: nat) {
    forall i :: 0 <= i < |ops| ==> !(ops[i].0 == client && ops[i].1.ClearOp?)
  }

  /** A chat of the client that the cache answered, or whose answer it stored. */
  predicate CachedChat(op: (nat, ClientOp), client: nat, settings: Settings, provider: Provider) {
    op.0 == client && op.1.ChatOp? && settings.enabled && Uncached(provider(op.1.key)).Success?
  }

  lemma RunFront(before: seq<(nat, ClientOp)>, since: seq<(nat, ClientOp)>)
    requires since != []
    ensures (before + since)[..|before + since| - 1] == before + since[..|since| - 1]
    ensures (before + since)[|before + since| - 1] == since[|since| - 1]
  {
  }

  lemma {:induction false} RecordGrows(before: seq<(nat, ClientOp)>, since: seq<(nat, ClientOp)>, client: nat,
                                       settings: Settings, provider: Provider)
    requires NoClear(since, client)
    ensures Recorded(before, client, settings, provider) <= Recorded(before + since, client, settings, provider)
  {
    if since == [] {
      assert before + since == before;
    } else {
      RunFront(before, since);
      RecordGrows(before, since[..|since| - 1], client, settings, provider);
    }
  }

  ghost predicate UsedIn(events: seq<CacheEvent>, key: Key) {
    exists e :: e in events && UsesCache(e) && e.key == key
  }

  lemma UsedInEither(a: seq<CacheEvent>, b: seq<CacheEvent>, key: Key)
    requires UsedIn(a, key) || UsedIn(b, key)
    ensures UsedIn(a + b, key)
  {
    var e :| (e in a || e in b) && UsesCache(e) && e.key == key;
    assert e in a + b;
  }

  lemma TailOfConcat<T>(a: seq<T>, b: seq<T>, k: nat)
    requires k <= |a|
    ensures (a + b)[k..] == a[k..] + b
  {
  }

  /** What the last operation of a run adds to the record of the client. */
  function AddedLast(ops: seq<(nat, ClientOp)>, client: nat, settings: Settings, provider: Provider): seq<CacheEvent>
    requires ops != []
  {
    var front, last := ops[..|ops| - 1], ops[|ops| - 1];
    var n := |Recorded(front, client, settings, provider)|;
    if last.0 != client then []
    else EventsOf(ViewOf(RunWorld(front, settings, provider), client), n, last.1, settings, provider)
  }

  lemma ChatAddsUse(ops: seq<(nat, ClientOp)>, client: nat, settings: Settings, provider: Provider)
    requires ops != [] && CachedChat(ops[|ops| - 1], client, settings, provider)
    ensures UsedIn(AddedLast(ops, client, settings, provider), ops[|ops| - 1].1.key)
  {
    var e := AddedLast(ops, client, settings, provider)[0];
    assert e in AddedLast(ops, client, settings, provider) && UsesCache(e);
  }

  lemma RecordedLast(before: seq<(nat, ClientOp)>, since: seq<(nat, ClientOp)>, client: nat, settings: Settings,
                     provider: Provider)
    requires since != [] && NoClear(since, client)
    ensures Recorded(before + since, client, settings, provider)
         == Recorded(before + since[..|since| - 1], client, settings, provider)
            + AddedLast(before + since, client, settings, provider)
  {
    RunFront(before, since);
    var mid := Recorded(before + since[..|since| - 1], client, settings, provider);
    assert mid + [] == mid;
  }

  /** Of what was recorded after `start`, some event used the cache for the key. */
  ghost predicate UsedSince(start: seq<CacheEvent>, all: seq<CacheEvent>, key: Key) {
    |start| <= |all| && UsedIn(all[|start|..], key)
  }

  lemma UsedSinceLonger(start: seq<CacheEvent>, small: seq<CacheEvent>, all: seq<CacheEvent>, key: Key)
    requires UsedSince(start, small, key) && small <= all
    ensures UsedSince(start, all, key)
  {
    var k := |start|;
    assert all[k..] == small[k..] + all[|small|..];
    UsedInEither(small[k..], all[|small|..], key);
  }

  lemma UsedSinceAdded(start: seq<CacheEvent>, mid: seq<CacheEvent>, added: seq<CacheEvent>, key: Key)
    requires start <= mid && UsedIn(added, key)
    ensures UsedSince(start, mid + added, key)
  {
    TailOfConcat(mid, added, |start|);
    UsedInEither(mid[|start|..], added, key);
  }

  /** The last operation since the cursor, a cached chat, adds an event that used the cache for its key. */
  lemma LastChatAdds(before: seq<(nat, ClientOp)>, since: seq<(nat, ClientOp)>, client: nat, settings: Settings,
                     provider: Provider)
    requires since != [] && NoClear(since, client) && CachedChat(since[|since| - 1], client, settings, provider)
    ensures UsedIn(AddedLast(before + since, client, settings, provider), since[|since| - 1].1.key)
  {
    RunFront(before, since);
    ChatAddsUse(before + since, client, settings, provider);
  }

  /** The last operation since the cursor, a cached chat, has left an event since the cursor. */
  lemma LastChatIsRecorded(before: seq<(nat, ClientOp)>, since: seq<(nat, ClientOp)>, client: nat,
                           settings: Settings, provider: Provider)
    requires since != [] && NoClear(since, client) && CachedChat(since[|since| - 1], client, settings, provider)
    ensures UsedSince(Recorded(before, client, settings, provider),
                      Recorded(before + since, client, settings, provider), since[|since| - 1].1.key)
  {
    var front, key := since[..|since| - 1], since[|since| - 1].1.key;
    RecordGrows(before, front, client, settings, provider);
    RecordedLast(before, since, client, settings, provider);
    LastChatAdds(before, since, client, settings, provider);
    UsedSinceAdded(Recorded(before, client, settings, provider), Recorded(before + front, client, settings, provider),
                   AddedLast(before + since, client, settings, provider), key);
  }

  lemma RecordedUpTo(before: seq<(nat, ClientOp)>, since: seq<(nat, ClientOp)>, n: nat, client: nat,
                     settings: Settings, provider: Provider)
    requires 1 <= n <= |since| && NoClear(since, client)
    ensures Recorded(before + since[..n], client, settings, provider)
         <= Recorded(before + since, client, settings, provider)
    ensures NoClear(since[..n], client) && |since[..n]| == n && since[..n][|since[..n]| - 1] == since[n - 1]
  {
    RecordGrows(before + since[..n], since[n..], client, settings, provider);
    assert (before + since[..n]) + since[n..] == before + since;
  }

  /** A cached chat since the cursor has left an event since the cursor. */
  lemma CachedChatIsRecorded(before: seq<(nat, ClientOp)>, since: seq<(nat, ClientOp)>, i: nat, client: nat,
                             settings: Settings, provider: Provider)
    requires NoClear(since, client) && i < |since| && CachedChat(since[i], client, settings, provider)
    ensures UsedSince(Recorded(before, client, settings, provider),
                      Recorded(before + since, client, settings, provider), since[i].1.key)
  {
    var upTo := since[..i + 1];
    RecordedUpTo(before, since, i + 1, client, settings, provider);
    LastChatIsRecorded(before, upTo, client, settings, provider);
    UsedSinceLonger(Recorded(before, client, settings, provider), Recorded(before + upTo, client, settings, provider),
                    Recorded(before + since, client, settings, provider), since[i].1.key);
  }

  /**
   * In every run of clients sharing a cache: if at most 64 events of a client followed its cursor, none of
   * the keys it chatted since, hit or stored, is in the cache after it rolled back to the cursor.
   */
  lemma RollbackForgetsEveryChat(before: seq<(nat, ClientOp)>, since: seq<(nat, ClientOp)>, client: nat,
                                 clock: nat -> real, settings: Settings, provider: Provider, i: nat)
    requires NoClear(since, client) && i < |since| && CachedChat(since[i], client, settings, provider)
    requires |Recorded(before + since, client, settings, provider)|
          <= |Recorded(before, client, settings, provider)| + HISTORY_LIMIT
    ensures var cursor := ViewOf(RunWorld(before, settings, provider), client).log.sequence;
            var after := StepWorld(RunWorld(before + since, settings, provider), client, RollbackOp(cursor, clock),
                                   settings, provider);
            since[i].1.key !in Keys(after.entries)
  {
    var all := Recorded(before + since, client, settings, provider);
    var cursor := |Recorded(before, client, settings, provider)|;
    EveryLogIsATail(before, client, settings, provider);
    EveryLogIsATail(before + since, client, settings, provider);
    CachedChatIsRecorded(before, since, i, client, settings, provider);
    var v := ViewOf(RunWorld(before + since, settings, provider), client);
    RollbackRemovesAll(v, all, cursor, BY_CALLER, clock);
    var e :| e in all[cursor..] && UsesCache(e) && e.key == since[i].1.key;
    assert RolledBack(DiscardSince(v, cursor, BY_CALLER, clock).0.entries, all, cursor);
    assert e.key !in Keys(DiscardSince(v, cursor, BY_CALLER, clock).0.entries);
  }

  lemma StoreInEmpty(key: Key, text: string, t: ChatTimes, settings: Settings)
    requires settings.maxSize >= 1
    ensures AfterPut([], key, text, t.purge, t.store, settings.maxSize, settings.ttlSeconds)
         == [Entry(key, text, t.store + settings.ttlSeconds)]
  {
  }

  ghost predicate IsCleared(v: View) {
    v.entries == [] && v.log == EMPTY_LOG
  }

  /** The key is cached, and the log shows one event, number 1. */
  ghost predicate ChattedOnce(v: View, key: Key) {
    key in Keys(v.entries) && |v.log.history| == 1 && v.log.history[0].sequence == 1
  }

  /** A clear, after which a chat stores and records event number 1. */
  lemma ClearedChat(v: View, settings: Settings, key: Key, completion: Completion, t: ChatTimes)
    requires settings.enabled && settings.maxSize >= 1 && Uncached(completion).Success?
    requires t.size < t.store + settings.ttlSeconds && IsCleared(v)
    ensures ChattedOnce(ChatOutcome(v, settings, key, completion, t).0, key)
  {
    var answer := Uncached(completion);
    var e := Entry(key, answer.value, t.store + settings.ttlSeconds);
    StoreInEmpty(key, answer.value, t, settings);
    assert ChatEffect([], settings, key, answer, t).entries == [e];
    FilterOne(e, IsLive(t.size));
    assert e in Purge([e], t.size);
  }

  /** No event of the log comes after the cursor, so nothing is discarded. */
  lemma OldCursorDiscardsNothing(w: World, client: nat, key: Key, cursor: int, clock: nat -> real,
                                 settings: Settings, provider: Provider)
    requires ChattedOnce(ViewOf(w, client), key) && cursor >= 1
    ensures key in Keys(StepWorld(w, client, RollbackOp(cursor, clock), settings, provider).entries)
  {
    FilterNone(ViewOf(w, client).log.history, IsAfter(cursor));
  }

  lemma ViewAfterBoth(before: seq<(nat, ClientOp)>, client: nat, a: ClientOp, b: ClientOp, settings: Settings,
                      provider: Provider)
    ensures ViewOf(RunWorld(before + [(client, a), (client, b)], settings, provider), client)
         == StepView(StepView(ViewOf(RunWorld(before, settings, provider), client), a, settings, provider), b, settings,
                     provider)
  {
    var first, both := before + [(client, a)], before + [(client, a), (client, b)];
    assert first[..|first| - 1] == before && both[..|both| - 1] == first;
  }

  lemma ClearStep(v: View, settings: Settings, provider: Provider)
    ensures IsCleared(StepView(v, ClearOp, settings, provider))
  {
  }

  lemma ChatOnCleared(v: View, key: Key, t: ChatTimes, settings: Settings, provider: Provider)
    requires settings.enabled && settings.maxSize >= 1 && Uncached(provider(key)).Success?
    requires t.size < t.store + settings.ttlSeconds && IsCleared(v)
    ensures ChattedOnce(StepView(v, ChatOp(key, t), settings, provider), key)
  {
    ClearedChat(v, settings, key, provider(key), t);
  }

  lemma ClearedRun(before: seq<(nat, ClientOp)>, client: nat, key: Key, t: ChatTimes, settings: Settings,
                   provider: Provider)
    requires settings.enabled && settings.maxSize >= 1 && Uncached(provider(key)).Success?
    requires t.size < t.store + settings.ttlSeconds
    ensures var ops := before + [(client, ClearOp), (client, ChatOp(key, t))];
            ChattedOnce(ViewOf(RunWorld(ops, settings, provider), client), key)
  {
    ViewAfterBoth(before, client, ClearOp, ChatOp(key, t), settings, provider);
    var v := ViewOf(RunWorld(before, settings, provider), client);
    ClearStep(v, settings, provider);
    ChatOnCleared(StepView(v, ClearOp, settings, provider), key, t, settings, provider);
  }

  /**
   * A cursor does not outlive a clear of the client's own log: the numbers start again, and a chat after
   * the clear stays cached when the client rolls back to an older cursor.
   */
  lemma ClearedLogForgetsTheCursor(before: seq<(nat, ClientOp)>, client: nat, key: Key, t: ChatTimes, cursor: int,
                                   clock: nat -> real, settings: Settings, provider: Provider)
    requires settings.enabled && settings.maxSize >= 1 && Uncached(provider(key)).Success? && cursor >= 1
    requires t.size < t.store + settings.ttlSeconds
    ensures var ops := before + [(client, ClearOp), (client, ChatOp(key, t))];
            var after := StepWorld(RunWorld(ops, settings, provider), client, RollbackOp(cursor, clock), settings,
                                   provider);
            key in Keys(after.entries)
  {
    var ops := before + [(client, ClearOp), (client, ChatOp(key, t))];
    ClearedRun(before, client, key, t, settings, provider);
    OldCursorDiscardsNothing(RunWorld(ops, settings, provider), client, key, cursor, clock, settings, provider);
  }

  /**
   * Discarding the last entry right after a chat removes the key of that chat if it is cached, and says so; the
   * other entries that are live stay. A second time there is nothing to discard.
   */
  lemma LastChatIsDiscarded(v: View, settings: Settings, key: Key, completion: Completion, t: ChatTimes,
                            reason: string, now: real)
    requires key != ""
    ensures var v1 := ChatOutcome(v, settings, key, completion, t).0;
            var (v2, removed) := DiscardLast(v1, reason, now);
            && (removed <==> key in Keys(v1.entries)) && key !in Keys(v2.entries)
            && (forall e :: e in v1.entries && e.key != key && e.expiresAt > now ==> e in v2.entries)
            && (forall e :: e in v2.entries ==> e in v1.entries)
            && DiscardLast(v2, reason, now) == (v2, false)
  {
    var v1 := ChatOutcome(v, settings, key, completion, t).0;
    assert v1.log.lastKey == key;
    var v2 := DiscardLast(v1, reason, now).0;
    assert forall e :: e in v2.entries ==> e in v1.entries && e.key != key;
  }

  /**
   * A caller that takes the cursor, chats, cannot use the reply and rolls back is not served that
   * reply from the cache again.
   */
  lemma BadReplyIsNotServedAgain(v: View, all: seq<CacheEvent>, settings: Settings, key: Key,
                                 completion: Completion, t: ChatTimes, reason: string, clock: nat -> real, now: real)
    requires Refines(v.log, all)
    requires settings.enabled && ChatOutcome(v, settings, key, completion, t).1.Success?
    ensures var v1 := ChatOutcome(v, settings, key, completion, t).0;
            GetHit(DiscardSince(v1, v.log.sequence, reason, clock).0.entries, key, now).None?
  {
    var v1 := ChatOutcome(v, settings, key, completion, t).0;
    var event := ChatEvent(v.entries, |all|, settings, key, completion, t);
    ChatRecordsOneEvent(v, all, settings, key, completion, t);
    RollbackRemovesAll(v1, all + [event], |all|, reason, clock);
    assert event in (all + [event])[|all|..];
    var v2 := DiscardSince(v1, v.log.sequence, reason, clock).0;
    assert key !in Keys(v2.entries);
    assert key !in Keys(Purge(v2.entries, now));
  }

  // Beyond 64 events the rollback is incomplete: one chat of "A" followed by chats of "B".

  const TWO: Settings := Settings(true, 2, 10.0)
  const NOW: ChatTimes := ChatTimes(0.0, 0.0, 0.0, 0.0)
  const A_ENTRY: Entry := Entry("A", "x", 10.0)
  const B_ENTRY: Entry := Entry("B", "x", 10.0)

  function ChatAThenBs(n: nat): View
    requires n >= 1
  {
    if n == 1 then ChatOutcome(View([], EMPTY_LOG), TWO, "A", Reply("x"), NOW).0
    else ChatOutcome(ChatAThenBs(n - 1), TWO, "B", Reply("x"), NOW).0
  }

  lemma PlainReply()
    ensures Uncached(Reply("x")) == Success("x")
  {
    StripKeeps("x");
  }

  lemma ChatAOnEmpty(log: Log)
    ensures ChatOutcome(View([], log), TWO, "A", Reply("x"), NOW).0.entries == [A_ENTRY]
    ensures ChatOutcome(View([], log), TWO, "A", Reply("x"), NOW).1 == Success("x")
  {
    PlainReply();
    assert AfterGet([], "A", 0.0) == [];
    FilterOne(A_ENTRY, IsLive(0.0));
    assert AfterPut([], "A", "x", 0.0, 0.0, 2, 10.0) == [A_ENTRY];
  }

  lemma TwoEntryFacts()
    ensures Purge([A_ENTRY], 0.0) == [A_ENTRY]
    ensures Purge([A_ENTRY, B_ENTRY], 0.0) == [A_ENTRY, B_ENTRY]
    ensures PutLast([A_ENTRY], B_ENTRY) == [A_ENTRY, B_ENTRY]
    ensures PutLast([A_ENTRY, B_ENTRY], B_ENTRY) == [A_ENTRY, B_ENTRY]
    ensures Lookup([A_ENTRY], "B") == None
    ensures Lookup([A_ENTRY, B_ENTRY], "B") == Some(B_ENTRY)
  {
    var ab := [A_ENTRY, B_ENTRY];
    assert [A_ENTRY] + [B_ENTRY] == ab && [A_ENTRY][1..] == [] && ab[1..] == [B_ENTRY];
    FilterAll([A_ENTRY], IsLive(0.0));
    FilterAll(ab, IsLive(0.0));
    FilterOne(A_ENTRY, IsNot("B"));
    FilterExtend([A_ENTRY], B_ENTRY, IsNot("B"));
  }

  /** A chat of "B" on a live "A", with or without a live "B" behind it. */
  lemma ChatBOnA(entries: Entries, log: Log)
    requires entries == [A_ENTRY] || entries == [A_ENTRY, B_ENTRY]
    ensures ChatOutcome(View(entries, log), TWO, "B", Reply("x"), NOW).0.entries == [A_ENTRY, B_ENTRY]
    ensures ChatOutcome(View(entries, log), TWO, "B", Reply("x"), NOW).1 == Success("x")
  {
    PlainReply();
    TwoEntryFacts();
  }

  lemma ChatAFirst() returns (all: seq<CacheEvent>)
    ensures ChatAThenBs(1).entries == [A_ENTRY] && Refines(ChatAThenBs(1).log, all)
    ensures |all| == 1 && all[0].key == "A" && UsesCache(all[0])
  {
    ChatAOnEmpty(EMPTY_LOG);
    var a := ChatEvent([], 0, TWO, "A", Reply("x"), NOW);
    ChatRecordsOneEvent(View([], EMPTY_LOG), [], TWO, "A", Reply("x"), NOW);
    all := [] + [a];
  }

  lemma ChatBAfter(v: View, front: seq<CacheEvent>) returns (b: CacheEvent)
    requires v.entries == [A_ENTRY] || v.entries == [A_ENTRY, B_ENTRY]
    requires Refines(v.log, front)
    ensures var v' := ChatOutcome(v, TWO, "B", Reply("x"), NOW).0;
            v'.entries == [A_ENTRY, B_ENTRY] && Refines(v'.log, front + [b])
    ensures b.key == "B"
  {
    ChatBOnA(v.entries, v.log);
    b := ChatEvent(v.entries, |front|, TWO, "B", Reply("x"), NOW);
    ChatRecordsOneEvent(v, front, TWO, "B", Reply("x"), NOW);
  }

  /** After n chats, of which `all` are the events, "A" is cached, and so is "B" if it was asked for. */
  ghost predicate AThenBs(v: View, n: nat, all: seq<CacheEvent>) {
    && v.entries == (if n == 1 then [A_ENTRY] else [A_ENTRY, B_ENTRY])
    && Refines(v.log, all) && |all| == n >= 1
    && all[0].key == "A" && UsesCache(all[0])
    && forall i :: 1 <= i < n ==> all[i].key == "B"
  }

  lemma AnotherB(v: View, n: nat, front: seq<CacheEvent>) returns (all: seq<CacheEvent>)
    requires AThenBs(v, n, front)
    ensures AThenBs(ChatOutcome(v, TWO, "B", Reply("x"), NOW).0, n + 1, all)
  {
    var b := ChatBAfter(v, front);
    all := front + [b];
  }

  lemma {:induction false} ChatAThenBsState(n: nat) returns (all: seq<CacheEvent>)
    requires n >= 1
    ensures AThenBs(ChatAThenBs(n), n, all)
  {
    if n == 1 {
      all := ChatAFirst();
    } else {
      var front := ChatAThenBsState(n - 1);
      all := AnotherB(ChatAThenBs(n - 1), n - 1, front);
    }
  }

  lemma {:induction false} DiscardAllSpares(v: View, events: seq<CacheEvent>, reason: string, removed: nat)
    requires A_ENTRY in v.entries
    requires forall e :: e in events ==> e.key == "B"
    ensures A_ENTRY in DiscardAll(v, events, reason, _ => 0.0, removed).0.entries
    decreases |events|
  {
    if events == [] {
    } else {
      var (v', gone) := DiscardOne(v, events[0], reason, 0.0);
      DiscardAllSpares(v', events[1..], reason, if gone then removed + 1 else removed);
    }
  }

  lemma OlderEventsFallOff(log: Log, all: seq<CacheEvent>, e: CacheEvent)
    requires Refines(log, all) && |all| > HISTORY_LIMIT && e in EventsSince(log, 0)
    ensures e in all[1..]
  {
    var i :| 0 <= i < |log.history| && log.history[i] == e;
    var k := |all| - HISTORY_LIMIT + i;
    assert all[k] == e && all[1..][k - 1] == all[k];
  }

  /** For every n > 64 some client chats n times after the cursor and keeps the first reply cached. */
  lemma RollbackMissesOlderEvents(n: nat) returns (all: seq<CacheEvent>)
    requires n > HISTORY_LIMIT
    ensures Refines(ChatAThenBs(n).log, all) && |all| == n
    ensures !RolledBack(DiscardSince(ChatAThenBs(n), 0, "", _ => 0.0).0.entries, all, 0)
  {
    all := ChatAThenBsState(n);
    var v := ChatAThenBs(n);
    var events := EventsSince(v.log, 0);
    forall e | e in events ensures e.key == "B" {
      OlderEventsFallOff(v.log, all, e);
      var i :| 0 <= i < |all[1..]| && all[1..][i] == e;
      assert all[i + 1] == e;
    }
    DiscardAllSpares(v, events, "", 0);
    var rest := DiscardSince(v, 0, "", _ => 0.0).0.entries;
    assert A_ENTRY in rest && A_ENTRY.key in Keys(rest);
    assert all[0] in all[0..];
  }

  /** Rolling back to a cursor with n events after it empties the cache of them, whatever happened. */
  ghost predicate RollsBackFully(n: nat) {
    forall v: View, all: seq<CacheEvent>, cursor: nat, clock: nat -> real ::
      Refines(v.log, all) && cursor <= |all| && |all| - cursor == n ==>
        RolledBack(DiscardSince(v, cursor, "", clock).0.entries, all, cursor)
  }

  lemma RollbackCompleteIff64(n: nat)
    ensures RollsBackFully(n) <==> n <= HISTORY_LIMIT
  {
    if n <= HISTORY_LIMIT {
      forall v: View, all: seq<CacheEvent>, cursor: nat, clock: nat -> real |
        Refines(v.log, all) && cursor <= |all| && |all| - cursor == n
        ensures RolledBack(DiscardSince(v, cursor, "", clock).0.entries, all, cursor)
      {
        RollbackRemovesAll(v, all, cursor, "", clock);
      }
    } else {
      var all := RollbackMissesOlderEvents(n);
    }
  }

  // ---------------------------------------------------------------------------
  // The client object
  // ---------------------------------------------------------------------------

  class Client {
    const cache: LlmResponseCache
    const enabled: bool
    var sequence: nat
    var history: seq<CacheEvent>
    var last: Option<CacheEvent>
    var lastKey: Key

    constructor (cache: LlmResponseCache, enabled: bool)
      ensures this.cache == cache && this.enabled == enabled && TheLog() == EMPTY_LOG
    {
      this.cache, this.enabled := cache, enabled;
      sequence, history, last, lastKey := 0, [], None, "";
    }

    function TheLog(): Log
      reads this
    {
      Log(sequence, history, last, lastKey)
    }

    function TheView(): View
      reads this, cache
    {
      View(cache.entries, TheLog())
    }

    function TheSettings(): Settings {
      Settings(enabled, cache.maxSize, cache.ttlSeconds)
    }

    method SetCacheEvent(status: Status, key: Key, reason: string, now: real)
      requires cache.Valid()
      modifies this, cache`entries
      ensures cache.Valid() && TheView() == Emit(old(TheView()), status, key, reason, now)
    {
      var size := cache.CurrentSize(now);
      var event := CacheEvent(sequence + 1, status, key, Strip(reason), size);
      Append(event);
      sequence := sequence + 1;
      lastKey := key;
      last := Some(event);
    }

    /** The history keeps the newest 64 events. */
    method Append(event: CacheEvent)
      modifies this`history
      ensures history == LastOf(old(history) + [event], HISTORY_LIMIT)
    {
      history := history + [event];
      if |history| > 64 {
        history := history[|history| - 64..];
      }
    }

    /** `gate` is the error of the checks made before the cache is consulted (missing key, no messages). */
    method Chat(gate: Option<string>, key: Key, provider: Provider, t: ChatTimes) returns (r: Result<string, string>)
      requires cache.Valid()
      modifies this, cache
      ensures cache.Valid()
      ensures gate.Some? ==> r == Failure(gate.value) && unchanged(this) && unchanged(cache)
      ensures gate.None? ==>
        && TheView() == ChatOutcome(old(TheView()), TheSettings(), key, provider(key), t).0
        && r == ChatOutcome(old(TheView()), TheSettings(), key, provider(key), t).1
      ensures gate.None? ==>
        var hit := enabled && GetHit(old(cache.entries), key, t.lookup).Some?;
        && cache.hits == old(cache.hits) + (if hit then 1 else 0)
        && cache.misses == old(cache.misses) + (if enabled && !hit then 1 else 0)
        && cache.bypasses == old(cache.bypasses) + (if enabled then 0 else 1)
        && cache.failures == old(cache.failures) + (if !hit && Uncached(provider(key)).Failure? then 1 else 0)
        && cache.discards == old(cache.discards)
      ensures gate.None? && enabled ==>
        forall e :: e in old(cache.entries) && e.key == key && e.expiresAt > t.lookup ==> r == Success(e.value)
      ensures gate.None? ==>
        (enabled ==> forall e :: e in old(cache.entries) && e.key == key ==> e.expiresAt <= t.lookup) ==>
          r == Uncached(provider(key))
      ensures gate.None? && Faithful(old(cache.entries), provider) ==>
        r == Uncached(provider(key)) && Faithful(cache.entries, provider)
    {
      if gate.Some? {
        return Failure(gate.value);
      }
      if Faithful(cache.entries, provider) {
        ChatIsTransparent(TheView(), TheSettings(), key, t, provider);
      }
      ChatAnswers(TheView(), TheSettings(), key, provider(key), t);
      r := ChatFor(key, Uncached(provider(key)), t);
    }

    method ChatFor(key: Key, answer: Result<string, string>, t: ChatTimes) returns (r: Result<string, string>)
      requires cache.Valid()
      modifies this, cache
      ensures cache.Valid()
      ensures var effect := ChatEffect(old(cache.entries), TheSettings(), key, answer, t);
              TheView() == Emitted(old(TheView()), key, effect, t) && r == effect.answer
      ensures var hit := enabled && GetHit(old(cache.entries), key, t.lookup).Some?;
              && cache.hits == old(cache.hits) + (if hit then 1 else 0)
              && cache.misses == old(cache.misses) + (if enabled && !hit then 1 else 0)
              && cache.bypasses == old(cache.bypasses) + (if enabled then 0 else 1)
              && cache.failures == old(cache.failures) + (if !hit && answer.Failure? then 1 else 0)
              && cache.discards == old(cache.discards)
    {
      if enabled {
        var hit, cached := cache.Get(key, t.lookup);
        if hit {
          SetCacheEvent(Hit, key, "cache_hit", t.size);
          return Success(cached);
        }
      } else {
        cache.bypasses := cache.bypasses + 1;
      }
      r := AskProvider(key, answer, t);
    }

    method AskProvider(key: Key, answer: Result<string, string>, t: ChatTimes) returns (r: Result<string, string>)
      requires cache.Valid()
      modifies this, cache`entries, cache`evictions, cache`failures
      ensures cache.Valid() && r == answer
      ensures TheView() == Emitted(old(TheView()), key, AskEffect(old(cache.entries), TheSettings(), key, answer, t), t)
      ensures cache.failures == old(cache.failures) + (if answer.Failure? then 1 else 0)
    {
      match answer {
        case Failure(message) =>
          cache.failures := cache.failures + 1;
          SetCacheEvent(Failed, key, message, t.size);
        case Success(text) =>
          if enabled {
            cache.Set(key, text, t.purge, t.store);
            SetCacheEvent(Miss, key, "cache_store", t.size);
          } else {
            SetCacheEvent(Bypass, key, "cache_disabled", t.size);
          }
      }
      return answer;
    }

    /** Returns how many entries were removed. */
    method DiscardCacheEntriesSince(cursor: int, reason: string, clock: nat -> real) returns (removed: nat)
      requires cache.Valid()
      modifies this, cache
      ensures cache.Valid()
      ensures (TheView(), removed) == DiscardSince(old(TheView()), cursor, reason, clock)
    {
      ghost var before := TheView();
      var events := EventsSince(TheLog(), cursor);
      removed := 0;
      for i := 0 to |events|
        invariant cache.Valid()
        invariant DiscardAll(before, events, reason, clock, 0)
               == DiscardAll(TheView(), events[i..], reason, clock, removed)
      {
        var event, rest := events[i], events[i..];
        assert rest[0] == event && rest[1..] == events[i + 1..];
        ghost var step := DiscardOne(TheView(), event, reason, clock(removed));
        if UsesCache(event) {
          var gone := cache.DiscardKey(event.key);
          if gone {
            SetCacheEvent(Discarded, event.key, reason, clock(removed));
            removed := removed + 1;
          } else {
            FilterAll(step.0.entries, IsNot(event.key));
          }
        }
        assert TheView() == step.0;
      }
    }

    method DiscardLastCacheEntry(reason: string, now: real) returns (removed: bool)
      requires cache.Valid()
      modifies this, cache
      ensures cache.Valid()
      ensures (TheView(), removed) == DiscardLast(old(TheView()), reason, now)
    {
      if lastKey == "" {
        return false;
      }
      var key := lastKey;
      ghost var before := TheView();
      removed := cache.DiscardKey(key);
      if removed {
        SetCacheEvent(Discarded, key, reason, now);
      } else {
        FilterAll(before.entries, IsNot(key));
        assert TheView() == before;
      }
      ghost var after := TheView();
      lastKey := "";
      assert TheView() == after.(log := after.log.(lastKey := ""));
    }

    method Clear(resetStats: bool)
      requires cache.Valid()
      modifies this, cache
      ensures cache.Valid() && TheView() == ClearCache(old(TheView()))
      ensures resetStats ==>
        cache.hits == cache.misses == cache.bypasses == cache.failures == cache.discards == cache.evictions == 0
      ensures !resetStats ==>
        && cache.hits == old(cache.hits) && cache.misses == old(cache.misses) && cache.bypasses == old(cache.bypasses)
        && cache.failures == old(cache.failures) && cache.discards == old(cache.discards)
        && cache.evictions == old(cache.evictions)
    {
      cache.ClearAll(resetStats);
      sequence, history, last, lastKey := 0, [], None, "";
    }
  }

  // ---------------------------------------------------------------------------
  // Fenced replies
  // ---------------------------------------------------------------------------

  ghost predicate PlainLine(line: string) {
    forall c :: c in line ==> !IsLineBoundary(c)
  }

  lemma FirstBoundaryAt(line: string, c: char, rest: string)
    requires PlainLine(line) && IsLineBoundary(c)
    ensures FirstBoundary(line + [c] + rest) == |line|
  {
    var text := line + [c] + rest;
    assert text[|line|] == c;
    assert forall j :: 0 <= j < |line| ==> text[j] == line[j];
  }

  lemma {:induction false} UniversalLinesOfJoin(lines: seq<string>)
    requires lines != [] && lines[|lines| - 1] != ""
    requires forall l :: l in lines ==> PlainLine(l)
    ensures UniversalLines(JoinLines(lines)) == lines
  {
    var text := JoinLines(lines);
    assert lines[0] in lines;
    if |lines| == 1 {
      assert text[..|text|] == text;
      assert FirstBoundary(text) == |text|;
    } else {
      var rest := JoinLines(lines[1..]);
      UniversalLinesOfJoin(lines[1..]);
      FirstBoundaryAt(lines[0], '\n', rest);
      assert text == lines[0] + ['\n'] + rest;
      assert text[..|lines[0]|] == lines[0] && text[|lines[0]| + 1..] == rest;
      assert lines == [lines[0]] + lines[1..];
    }
  }

  ghost predicate EndsIn(text: string, c: char) {
    text != "" && text[|text| - 1] == c
  }

  lemma JoinOneMore(lines: seq<string>)
    requires |lines| >= 2
    ensures JoinLines(lines) == lines[0] + "\n" + JoinLines(lines[1..])
  {
  }

  lemma {:induction false} JoinLastChar(lines: seq<string>, c: char)
    requires lines != [] && EndsIn(lines[|lines| - 1], c)
    ensures EndsIn(JoinLines(lines), c)
  {
    if |lines| == 1 {
    } else {
      JoinOneMore(lines);
      JoinLastChar(lines[1..], c);
      LastOfConcat(lines[0] + "\n", JoinLines(lines[1..]));
    }
  }

  lemma JoinLinesEnds(lines: seq<string>, c: char)
    requires |lines| >= 2 && EndsIn(lines[|lines| - 1], c)
    ensures |JoinLines(lines)| > |lines[0]| && JoinLines(lines)[..|lines[0]|] == lines[0] && EndsIn(JoinLines(lines), c)
  {
    JoinOneMore(lines);
    JoinLastChar(lines, c);
  }

  lemma FencedTextIsKept(tag: string, body: seq<string>)
    ensures var text := JoinLines([FENCE + tag] + body + [FENCE]);
            Strip(text) == text && StartsWith(text, FENCE)
  {
    var lines := [FENCE + tag] + body + [FENCE];
    JoinLinesEnds(lines, '`');
    StartOfConcat(JoinLines(lines), FENCE, tag);
    FenceIsTrimmed(JoinLines(lines), '`');
  }

  /** A line end: carriage return and line feed together, or one boundary character. */
  ghost predicate IsLineEnd(end: string) {
    end == "\r\n" || (|end| == 1 && IsLineBoundary(end[0]))
  }

  lemma LineBefore(line: string, c: char, rest: string)
    requires PlainLine(line) && IsLineBoundary(c) && (c == '\r' && rest != "" ==> rest[0] != '\n')
    ensures UniversalLines(line + [c] + rest) == [line] + UniversalLines(rest)
  {
    var text := line + [c] + rest;
    FirstBoundaryAt(line, c, rest);
    AtSeam(line, c, rest);
    assert text[..|line|] == line;
    assert rest != "" ==> text[|line| + 1] == rest[0];
  }

  lemma LineBeforeBoth(line: string, rest: string)
    requires PlainLine(line)
    ensures UniversalLines(line + "\r\n" + rest) == [line] + UniversalLines(rest)
  {
    var text := line + ['\r'] + ("\n" + rest);
    assert text == line + "\r\n" + rest;
    FirstBoundaryAt(line, '\r', "\n" + rest);
    assert text[|line|] == '\r' && text[|line| + 1] == '\n';
    assert text[..|line|] == line && text[|line| + 2..] == rest;
  }

  /** The text up to the first line end is a line; a carriage return before a line feed is no end of its own. */
  lemma FirstLineIs(line: string, end: string, rest: string)
    requires PlainLine(line) && IsLineEnd(end) && (end == "\r" && rest != "" ==> rest[0] != '\n')
    ensures UniversalLines(line + end + rest) == [line] + UniversalLines(rest)
  {
    if |end| == 1 {
      assert end == [end[0]];
      LineBefore(line, end[0], rest);
    } else {
      LineBeforeBoth(line, rest);
    }
  }

  /** A text without line ends is one line, or none if it is empty. */
  lemma LastLineIs(line: string)
    requires PlainLine(line)
    ensures UniversalLines(line) == if line == "" then [] else [line]
  {
    assert line[..|line|] == line;
    assert FirstBoundary(line) == |line|;
  }

  /** A reply that does not begin with a fence is stripped, and refused if nothing is left. */
  lemma UnfencedReply(left: string, core: string, right: string)
    requires Blank(left) && Trimmed(core) && Blank(right) && (core == "" ==> right == "")
    requires !StartsWith(core, FENCE)
    ensures StripMarkdownFence(left + core + right) == core
    ensures Uncached(Reply(left + core + right))
         == if core == "" then Failure("empty completion from llm") else Success(core)
  {
    StripAround(left, core, right);
    StripKeeps(core);
  }

  /** A fenced reply gives its stripped body, and is refused if nothing is left of it. */
  lemma FencedReply(tag: string, body: seq<string>)
    requires PlainLine(tag) && forall l :: l in body ==> PlainLine(l)
    ensures Uncached(Reply(JoinLines([FENCE + tag] + body + [FENCE])))
         == if Strip(JoinLines(body)) == "" then Failure("empty completion from llm")
            else Success(Strip(JoinLines(body)))
    ensures body == [] ==>
              Uncached(Reply(JoinLines([FENCE + tag] + body + [FENCE]))) == Failure("empty completion from llm")
  {
    StripKeeps("");
    FenceIsRemoved(tag, body);
    StripTrims(JoinLines(body));
  }

  /** Without a closing fence everything after the opening line is kept. */
  lemma OpenFenceIsRemoved(tag: string, body: seq<string>, c: char)
    requires PlainLine(tag) && body != [] && forall l :: l in body ==> PlainLine(l)
    requires EndsIn(body[|body| - 1], c) && !IsSpace(c) && Strip(body[|body| - 1]) != FENCE
    ensures StripMarkdownFence(JoinLines([FENCE + tag] + body)) == Strip(JoinLines(body))
  {
    var lines := [FENCE + tag] + body;
    OpenLines(tag, body, c);
    UnwrapsTo(JoinLines(lines), lines);
    BehindFence(tag, body);
  }

  lemma OpenLines(tag: string, body: seq<string>, c: char)
    requires PlainLine(tag) && body != [] && forall l :: l in body ==> PlainLine(l)
    requires EndsIn(body[|body| - 1], c) && !IsSpace(c)
    ensures var lines := [FENCE + tag] + body; var text := JoinLines(lines);
            UniversalLines(Strip(text)) == lines && StartsWith(Strip(text), FENCE)
  {
    OpenTextIsKept(tag, body, c);
    UniversalLinesOfJoin([FENCE + tag] + body);
  }

  lemma UnwrapsTo(text: string, lines: seq<string>)
    requires lines != [] && UniversalLines(Strip(text)) == lines && StartsWith(Strip(text), FENCE)
    ensures StripMarkdownFence(text) == Strip(JoinLines(Unwrapped(lines)))
  {
  }

  lemma OpenTextIsKept(tag: string, body: seq<string>, c: char)
    requires body != [] && EndsIn(body[|body| - 1], c) && !IsSpace(c)
    ensures var text := JoinLines([FENCE + tag] + body); Strip(text) == text && StartsWith(text, FENCE)
  {
    var lines := [FENCE + tag] + body;
    JoinLinesEnds(lines, c);
    StartOfConcat(JoinLines(lines), FENCE, tag);
    FenceIsTrimmed(JoinLines(lines), c);
  }

  lemma FenceIsTrimmed(text: string, c: char)
    requires StartsWith(text, FENCE) && EndsIn(text, c) && !IsSpace(c)
    ensures Strip(text) == text
  {
    assert text[0] == text[..3][0] == '`';
    StripKeeps(text);
  }

  lemma BehindFence(tag: string, body: seq<string>)
    requires body != [] && Strip(body[|body| - 1]) != FENCE
    ensures Unwrapped([FENCE + tag] + body) == body
  {
    assert (FENCE + tag)[..3] == FENCE;
    assert ([FENCE + tag] + body)[1..] == body;
  }

  /** A reply wrapped in a code fence, with or without a language tag, gives the stripped body. */
  lemma FenceIsRemoved(tag: string, body: seq<string>)
    requires PlainLine(tag) && forall l :: l in body ==> PlainLine(l)
    ensures StripMarkdownFence(JoinLines([FENCE + tag] + body + [FENCE])) == Strip(JoinLines(body))
  {
    var lines := [FENCE + tag] + body + [FENCE];
    var text := JoinLines(lines);
    FencedTextIsKept(tag, body);
    UniversalLinesOfJoin(lines);
    assert UniversalLines(Strip(text)) == lines;
    BetweenFences(tag, body);
  }

  /** The fence lines around the body are dropped. */
  lemma BetweenFences(tag: string, body: seq<string>)
    ensures Unwrapped([FENCE + tag] + body + [FENCE]) == body
  {
    StripKeeps(FENCE);
    assert (FENCE + tag)[..3] == FENCE;
    assert ([FENCE + tag] + body + [FENCE])[1..] == body + [FENCE];
  }
}
