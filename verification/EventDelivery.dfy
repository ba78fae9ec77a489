/**
 * Event delivery with retries, exponential backoff and a circuit breaker
 * (`ControlPlaneClient.publish_event_with_retry_result`), and the acknowledgement format.
 *
 * The transport is a script: what the k-th attempt's send returns, and the clock around it.
 */
module EventDelivery {
  import opened Sequences
  import opened Breakers

  // ---------------------------------------------------------------------------
  // Acknowledgements
  // ---------------------------------------------------------------------------

  datatype Json = JInt(n: int) | JBool(b: bool) | JString(s: string) | JNull | JOther

  type Response = Option<map<string, Json>>

  datatype Ack = Ack(number: int, accepted: bool, duplicate: bool, errorCode: Option<string>)

  /** In Python a boolean is an instance of int. */
  predicate IsInt(v: Json) {
    v.JInt? || v.JBool?
  }

  function IntOf(v: Json): int
    requires IsInt(v)
  {
    match v
    case JInt(n) => n
    case JBool(b) => if b then 1 else 0
  }

  function ExtractAck(response: Response): Option<Ack> {
    if response.None? || response.value == map[] then None
    else
      var m := response.value;
      if !("seq" in m && "accepted" in m && "duplicate" in m && "errorCode" in m) then None
      else if !IsInt(m["seq"]) || IntOf(m["seq"]) < 0 then None
      else if !m["accepted"].JBool? || !m["duplicate"].JBool? then None
      else
        match m["errorCode"]
        case JNull => Some(Ack(IntOf(m["seq"]), m["accepted"].b, m["duplicate"].b, None))
        case JString(code) => Some(Ack(IntOf(m["seq"]), m["accepted"].b, m["duplicate"].b, Some(code)))
        case JInt(_) => None
        case JBool(_) => None
        case JOther => None
  }

  predicate ValidateAck(response: Response, expected: Option<int>) {
    if response.None? || response.value == map[] then false
    else
      var m := response.value;
      && "seq" in m && IsInt(m["seq"])
      && "accepted" in m && m["accepted"].JBool?
      && "duplicate" in m && m["duplicate"].JBool?
      && IntOf(m["seq"]) >= 0
      && (expected.Some? ==> IntOf(m["seq"]) == expected.value)
      && ("errorCode" in m ==> m["errorCode"].JNull? || m["errorCode"].JString?)
  }

  function AckJson(ack: Ack): map<string, Json> {
    map["seq" := JInt(ack.number), "accepted" := JBool(ack.accepted), "duplicate" := JBool(ack.duplicate),
        "errorCode" := if ack.errorCode.Some? then JString(ack.errorCode.value) else JNull]
  }

  /** The two checks differ only on an answer without an error code field. */
  lemma ExtractedIffValidWithErrorCode(response: Response)
    ensures ExtractAck(response).Some? <==>
              ValidateAck(response, None) && "errorCode" in response.value
  {
  }

  lemma AckNames()
    ensures "seq" != "accepted" && "seq" != "duplicate" && "seq" != "errorCode"
    ensures "accepted" != "duplicate" && "accepted" != "errorCode" && "duplicate" != "errorCode"
  {
    assert |"seq"| == 3 && |"accepted"| == 8 && |"duplicate"| == 9 && |"errorCode"| == 9;
    assert "duplicate"[0] == 'd' && "errorCode"[0] == 'e';
  }

  /** An extracted acknowledgement is valid for exactly its own number, and extracts to itself. */
  lemma ExtractedAckIsValid(response: Response, expected: int)
    requires ExtractAck(response).Some?
    ensures var ack := ExtractAck(response).value;
            && (ValidateAck(Some(AckJson(ack)), Some(expected)) <==> ack.number == expected)
            && ExtractAck(Some(AckJson(ack))) == Some(ack)
  {
    AckNames();
    var m := AckJson(ExtractAck(response).value);
    assert "seq" in m;
  }

  // ---------------------------------------------------------------------------
  // One delivery
  // ---------------------------------------------------------------------------

  const NON_RETRYABLE_ACK_ERRORS: set<string> := {
    "INVALID_NODE_ID", "NODE_NOT_REGISTERED", "MISSING_EVENT_ID", "TASK_NOT_FOUND",
    "ACCESS_DENIED", "INVALID_EVENT", "ILLEGAL_STATE_TRANSITION"
  }

  /** What a send gives: a response, a request error, or any other exception. */
  datatype Send = Answered(response: Response) | RequestError(retryable: bool) | OtherError

  /** The clock at the breaker's check before the send and at its record of a failure after it. */
  datatype Attempt = Attempt(begin: real, finish: real, send: Send)

  datatype Verdict = Accepted | Refused(retryable: bool)

  function Judge(send: Send): Verdict {
    match send
    case RequestError(retryable) => Refused(retryable)
    case OtherError => Refused(false)
    case Answered(response) =>
      match ExtractAck(response)
      case None => Refused(true)
      case Some(ack) =>
        if ack.accepted then Accepted
        else Refused(ack.errorCode.None? || ack.errorCode.value !in NON_RETRYABLE_ACK_ERRORS)
  }

  /** A returned response is a success for the breaker, whatever it says. */
  function BreakerAfter(b: Breaker, a: Attempt, threshold: nat): Breaker {
    if a.send.Answered? then OnSuccess(b) else OnFailure(b, a.finish, threshold)
  }

  function Pow2(n: nat): nat {
    if n == 0 then 1 else 2 * Pow2(n - 1)
  }

  function MaxAttempts(requested: int): (r: nat)
    ensures 1 <= r <= 5
    ensures 1 <= requested <= 5 ==> r == requested
    ensures requested < 1 ==> r == 1
    ensures requested > 5 ==> r == 5
  {
    if requested < 1 then 1 else if requested > 5 then 5 else requested
  }

  function Backoff(requested: real): (r: real)
    ensures r >= 1.0 && r >= requested
    ensures r == 1.0 || r == requested
  {
    if requested < 1.0 then 1.0 else requested
  }

  /** The pause before attempt k: nothing before the first, then the backoff, doubling. */
  function Pause(backoff: real, k: nat): real {
    if k > 1 then backoff * Pow2(k - 2) as real else 0.0
  }

  /** All the pauses up to attempt k. */
  function Slept(backoff: real, k: nat): real {
    if k == 0 then 0.0 else Slept(backoff, k - 1) + Pause(backoff, k)
  }

  lemma DoubledPause(backoff: real, p: real)
    ensures backoff * (p - 1.0) + backoff * p == backoff * (2.0 * p - 1.0)
  {
  }

  /** The delay after k attempts is backoff * (2^(k-1) - 1). */
  lemma {:induction false} SleptClosedForm(backoff: real, k: nat)
    requires k >= 1
    ensures Slept(backoff, k) == backoff * (Pow2(k - 1) as real - 1.0)
  {
    if k > 1 {
      SleptClosedForm(backoff, k - 1);
      DoubledPause(backoff, Pow2(k - 2) as real);
    } else {
      assert Slept(backoff, 0) == 0.0;
    }
  }

  datatype Ending = Succeeded | Blocked | Exhausted | NonRetryable

  /** How a delivery ended, the attempts begun, the sends made, the delay slept, and the breaker after it. */
  datatype Delivery = Delivery(ending: Ending, tried: int, sends: int, totalDelay: real, breaker: Breaker)

  type Script = nat -> Attempt

  /** The delivery from attempt `k` on. */
  function Deliver(b: Breaker, k: nat, attempts: nat, backoff: real, delay: real, sends: nat,
                   script: Script, threshold: nat, recovery: real): Delivery
    requires 1 <= k
    decreases attempts - k
  {
    var delay' := delay + Pause(backoff, k);
    var a := script(k);
    var (b', admitted) := Before(b, a.begin, recovery);
    if !admitted then Delivery(Blocked, k, sends, delay', b')
    else
      var b'' := BreakerAfter(b', a, threshold);
      match Judge(a.send)
      case Accepted => Delivery(Succeeded, k, sends + 1, delay', b'')
      case Refused(false) => Delivery(NonRetryable, k, sends + 1, delay', b'')
      case Refused(true) =>
        if k >= attempts then Delivery(Exhausted, k, sends + 1, delay', b'')
        else Deliver(b'', k + 1, attempts, backoff, delay', sends + 1, script, threshold, recovery)
  }

  /** Whether attempt `k` ends the delivery, and how. */
  function EndingAt(admitted: bool, verdict: Verdict, k: nat, attempts: nat): Option<Ending> {
    if !admitted then Some(Blocked)
    else match verdict
      case Accepted => Some(Succeeded)
      case Refused(false) => Some(NonRetryable)
      case Refused(true) => if k >= attempts then Some(Exhausted) else None
  }

  /** The breaker after attempt `a`, and whether it was admitted. */
  function Attempted(b: Breaker, a: Attempt, threshold: nat, recovery: real): (Breaker, bool) {
    var (b', admitted) := Before(b, a.begin, recovery);
    (if admitted then BreakerAfter(b', a, threshold) else b', admitted)
  }

  lemma DeliverUnfolds(b: Breaker, k: nat, attempts: nat, backoff: real, delay: real, sends: nat,
                       script: Script, threshold: nat, recovery: real)
    requires 1 <= k
    ensures var (b', admitted) := Attempted(b, script(k), threshold, recovery);
            var delay', ending := delay + Pause(backoff, k), EndingAt(admitted, Judge(script(k).send), k, attempts);
            Deliver(b, k, attempts, backoff, delay, sends, script, threshold, recovery)
            == if ending.Some? then Delivery(ending.value, k, if admitted then sends + 1 else sends, delay', b')
               else Deliver(b', k + 1, attempts, backoff, delay', sends + 1, script, threshold, recovery)
  {
  }

  /** What the ending of a delivery, begun at attempt `k`, says about its sends. */
  ghost predicate EndsAsReported(d: Delivery, k: nat, attempts: nat, script: Script) {
    && k <= d.tried <= attempts
    && d.sends == (if d.ending.Blocked? then d.tried - 1 else d.tried)
    && (forall j :: k <= j < d.tried ==> Judge(script(j).send) == Refused(true))
    && match d.ending
       case Succeeded => Judge(script(d.tried).send).Accepted?
       case NonRetryable => Judge(script(d.tried).send) == Refused(false)
       case Exhausted => d.tried == attempts && Judge(script(d.tried).send) == Refused(true)
       case Blocked => true
  }

  lemma {:induction false} DeliverFrom(b: Breaker, k: nat, attempts: nat, backoff: real, script: Script,
                                       threshold: nat, recovery: real)
    requires 1 <= k <= attempts
    ensures var d := Deliver(b, k, attempts, backoff, Slept(backoff, k - 1), k - 1, script, threshold, recovery);
            EndsAsReported(d, k, attempts, script) && d.totalDelay == Slept(backoff, d.tried)
    decreases attempts - k
  {
    var a := script(k);
    var (b', admitted) := Before(b, a.begin, recovery);
    if admitted && Judge(a.send) == Refused(true) && k < attempts {
      DeliverFrom(BreakerAfter(b', a, threshold), k + 1, attempts, backoff, script, threshold, recovery);
    }
  }

  /** A delivery is at most five attempts, and ends at the first that is accepted, refused for good or blocked. */
  lemma DeliveryOutcome(b: Breaker, attempts: nat, backoff: real, script: Script, threshold: nat, recovery: real)
    requires attempts >= 1
    ensures var d := Deliver(b, 1, attempts, backoff, 0.0, 0, script, threshold, recovery);
            EndsAsReported(d, 1, attempts, script) && d.totalDelay == backoff * (Pow2(d.tried - 1) as real - 1.0)
  {
    DeliverFrom(b, 1, attempts, backoff, script, threshold, recovery);
    SleptClosedForm(backoff, Deliver(b, 1, attempts, backoff, 0.0, 0, script, threshold, recovery).tried);
  }

  // ---------------------------------------------------------------------------
  // How a delivery ends, read off the responses
  // ---------------------------------------------------------------------------

  /** A response with the four fields of an acknowledgement, each of its type. */
  ghost predicate IsAck(response: Response) {
    && response.Some?
    && var m := response.value;
       && "seq" in m && ((m["seq"].JInt? && m["seq"].n >= 0) || m["seq"].JBool?)
       && "accepted" in m && m["accepted"].JBool?
       && "duplicate" in m && m["duplicate"].JBool?
       && "errorCode" in m && (m["errorCode"] == JNull || m["errorCode"].JString?)
  }

  ghost predicate SaysAccepted(send: Send) {
    send.Answered? && IsAck(send.response) && send.response.value["accepted"] == JBool(true)
  }

  ghost predicate IsFinalCode(code: string) {
    || code == "INVALID_NODE_ID" || code == "NODE_NOT_REGISTERED" || code == "MISSING_EVENT_ID"
    || code == "TASK_NOT_FOUND" || code == "ACCESS_DENIED" || code == "INVALID_EVENT"
    || code == "ILLEGAL_STATE_TRANSITION"
  }

  /** A refusal with a final code, a request error that is not to be retried, or any other exception. */
  ghost predicate SaysNever(send: Send) {
    match send
    case RequestError(retryable) => !retryable
    case OtherError => true
    case Answered(response) =>
      && IsAck(response) && response.value["accepted"] == JBool(false)
      && response.value["errorCode"].JString? && IsFinalCode(response.value["errorCode"].s)
  }

  /** No acknowledgement, a refusal without a final code, or a request error that may be retried. */
  ghost predicate SaysLater(send: Send) {
    match send
    case RequestError(retryable) => retryable
    case OtherError => false
    case Answered(response) =>
      IsAck(response) ==>
        && response.value["accepted"] == JBool(false)
        && (response.value["errorCode"].JString? ==> !IsFinalCode(response.value["errorCode"].s))
  }

  /** A boolean stands for 0 or 1. */
  ghost predicate NumberIs(v: Json, n: int) {
    v == JInt(n) || (v == JBool(false) && n == 0) || (v == JBool(true) && n == 1)
  }

  /** An answer is valid for an expected number exactly if its fields say so; the error code may be missing. */
  lemma ValidatedFields(response: Response, expected: Option<int>)
    ensures ValidateAck(response, expected) <==>
              && response.Some?
              && var m := response.value;
                 && "seq" in m
                 && (exists n :: n >= 0 && NumberIs(m["seq"], n) && (expected == None || expected == Some(n)))
                 && "accepted" in m && m["accepted"].JBool?
                 && "duplicate" in m && m["duplicate"].JBool?
                 && ("errorCode" in m ==> m["errorCode"] == JNull || m["errorCode"].JString?)
  {
    if response.Some? && "seq" in response.value && IsInt(response.value["seq"]) {
      assert NumberIs(response.value["seq"], IntOf(response.value["seq"]));
    }
  }

  /** What is extracted from an acknowledgement is what its fields say. */
  lemma ExtractedFields(response: Response)
    ensures ExtractAck(response).Some? <==> IsAck(response)
    ensures IsAck(response) ==>
              var ack := ExtractAck(response).value;
              && NumberIs(response.value["seq"], ack.number)
              && JBool(ack.accepted) == response.value["accepted"]
              && JBool(ack.duplicate) == response.value["duplicate"]
              && ack.errorCode == if response.value["errorCode"] == JNull then None
                                  else Some(response.value["errorCode"].s)
  {
  }

  lemma FinalCodes(code: string)
    ensures code in NON_RETRYABLE_ACK_ERRORS <==> IsFinalCode(code)
  {
  }

  lemma JudgedByTheResponse(send: Send)
    ensures Judge(send) == Accepted <==> SaysAccepted(send)
    ensures Judge(send) == Refused(false) <==> SaysNever(send)
    ensures Judge(send) == Refused(true) <==> SaysLater(send)
  {
    if send.Answered? {
      ExtractedFields(send.response);
      if IsAck(send.response) && send.response.value["errorCode"].JString? {
        FinalCodes(send.response.value["errorCode"].s);
      }
    }
  }

  /** What an attempt that is let through does to the breaker: any response at all is a success. */
  function StepsOf(a: Attempt): seq<Step> {
    [BeforeStep(a.begin), match a.send
                          case Answered(_) => SuccessStep
                          case RequestError(_) => FailureStep(a.finish)
                          case OtherError => FailureStep(a.finish)]
  }

  /** The breaker before attempt `k`, all attempts before it having been let through. */
  function BreakerAt(b: Breaker, k: int, script: Script, threshold: nat, recovery: real): Breaker {
    if k <= 1 then b
    else
      var steps := StepsOf(script(k - 1));
      Apply(Apply(BreakerAt(b, k - 1, script, threshold, recovery), steps[0], threshold, recovery), steps[1], threshold,
            recovery)
  }

  ghost predicate LetThrough(b: Breaker, k: nat, script: Script, threshold: nat, recovery: real) {
    Before(BreakerAt(b, k, script, threshold, recovery), script(k).begin, recovery).1
  }

  /** Attempt `k` is made: the ones before it were let through, and told to try again. */
  ghost predicate Reaches(b: Breaker, k: int, attempts: nat, script: Script, threshold: nat, recovery: real) {
    && 1 <= k <= attempts
    && forall j: nat :: 1 <= j < k ==> LetThrough(b, j, script, threshold, recovery) && SaysLater(script(j).send)
  }

  /** Attempt `k` is made and ends the delivery so. */
  ghost predicate EndsWith(b: Breaker, k: nat, attempts: nat, script: Script, threshold: nat, recovery: real,
                           ending: Ending) {
    && Reaches(b, k, attempts, script, threshold, recovery)
    && var through := LetThrough(b, k, script, threshold, recovery);
       match ending
       case Succeeded => through && SaysAccepted(script(k).send)
       case Blocked => !through
       case NonRetryable => through && SaysNever(script(k).send)
       case Exhausted => through && SaysLater(script(k).send) && k == attempts
  }

  lemma AttemptSteps(b: Breaker, a: Attempt, threshold: nat, recovery: real)
    requires Before(b, a.begin, recovery).1
    ensures Apply(Apply(b, StepsOf(a)[0], threshold, recovery), StepsOf(a)[1], threshold, recovery)
         == Attempted(b, a, threshold, recovery).0
  {
  }

  /** The same, by the verdicts on the responses. */
  ghost predicate ReachesBy(b: Breaker, k: int, attempts: nat, script: Script, threshold: nat, recovery: real) {
    && 1 <= k <= attempts
    && forall j: nat :: 1 <= j < k ==> GoesOn(b, j, script, threshold, recovery)
  }

  ghost predicate GoesOn(b: Breaker, j: nat, script: Script, threshold: nat, recovery: real) {
    LetThrough(b, j, script, threshold, recovery) && Judge(script(j).send) == Refused(true)
  }

  ghost predicate EndsBy(b: Breaker, k: nat, attempts: nat, script: Script, threshold: nat, recovery: real,
                         ending: Ending) {
    && ReachesBy(b, k, attempts, script, threshold, recovery)
    && EndingAt(LetThrough(b, k, script, threshold, recovery), Judge(script(k).send), k, attempts) == Some(ending)
  }

  lemma NextBreaker(b: Breaker, k: nat, script: Script, threshold: nat, recovery: real)
    requires 1 <= k && LetThrough(b, k, script, threshold, recovery)
    ensures BreakerAt(b, k + 1, script, threshold, recovery)
         == Attempted(BreakerAt(b, k, script, threshold, recovery), script(k), threshold, recovery).0
  {
    AttemptSteps(BreakerAt(b, k, script, threshold, recovery), script(k), threshold, recovery);
  }

  lemma {:induction false} DeliverFromEnds(b: Breaker, before: Breaker, k: nat, attempts: nat, backoff: real,
                                           delay: real, script: Script, threshold: nat, recovery: real)
    requires ReachesBy(b, k, attempts, script, threshold, recovery)
    requires before == BreakerAt(b, k, script, threshold, recovery)
    ensures var d := Deliver(before, k, attempts, backoff, delay, k - 1, script, threshold, recovery);
            d.tried >= k && EndsBy(b, d.tried, attempts, script, threshold, recovery, d.ending)
    decreases attempts - k
  {
    DeliverUnfolds(before, k, attempts, backoff, delay, k - 1, script, threshold, recovery);
    var (after, admitted) := Attempted(before, script(k), threshold, recovery);
    if EndingAt(admitted, Judge(script(k).send), k, attempts).None? {
      NextBreaker(b, k, script, threshold, recovery);
      assert GoesOn(b, k, script, threshold, recovery);
      DeliverFromEnds(b, after, k + 1, attempts, backoff, delay + Pause(backoff, k), script, threshold, recovery);
    }
  }

  lemma OneEnd(b: Breaker, k: nat, j: nat, attempts: nat, script: Script, threshold: nat, recovery: real,
               ending: Ending, other: Ending)
    requires EndsBy(b, k, attempts, script, threshold, recovery, ending)
    requires EndsBy(b, j, attempts, script, threshold, recovery, other)
    ensures k == j && ending == other
  {
    EndedDoesNotGoOn(b, k, attempts, script, threshold, recovery, ending);
    EndedDoesNotGoOn(b, j, attempts, script, threshold, recovery, other);
  }

  lemma EndedDoesNotGoOn(b: Breaker, k: nat, attempts: nat, script: Script, threshold: nat, recovery: real,
                         ending: Ending)
    requires EndsBy(b, k, attempts, script, threshold, recovery, ending)
    ensures GoesOn(b, k, script, threshold, recovery) ==> k == attempts
  {
  }

  lemma ReachesIff(b: Breaker, k: int, attempts: nat, script: Script, threshold: nat, recovery: real)
    ensures Reaches(b, k, attempts, script, threshold, recovery)
       <==> ReachesBy(b, k, attempts, script, threshold, recovery)
  {
    forall j: nat
      ensures GoesOn(b, j, script, threshold, recovery)
         <==> LetThrough(b, j, script, threshold, recovery) && SaysLater(script(j).send)
    {
      JudgedByTheResponse(script(j).send);
    }
  }

  /** The verdict on an attempt, in the words of its response. */
  lemma EndsIff(b: Breaker, k: nat, attempts: nat, script: Script, threshold: nat, recovery: real, ending: Ending)
    ensures EndsWith(b, k, attempts, script, threshold, recovery, ending)
       <==> EndsBy(b, k, attempts, script, threshold, recovery, ending)
  {
    ReachesIff(b, k, attempts, script, threshold, recovery);
    JudgedByTheResponse(script(k).send);
  }

  /**
   * From any breaker: a delivery ends so on attempt `k` if and only if the breaker and the responses say so.
   * In particular it succeeds exactly if it comes to an attempt that is let through and answered by an
   * acknowledgement that says accepted.
   */
  lemma DeliveryEndsIff(b: Breaker, attempts: nat, backoff: real, script: Script, threshold: nat, recovery: real,
                        ending: Ending, k: nat)
    requires attempts >= 1
    ensures var d := Deliver(b, 1, attempts, backoff, 0.0, 0, script, threshold, recovery);
            d.ending == ending && d.tried == k <==> EndsWith(b, k, attempts, script, threshold, recovery, ending)
  {
    var d := Deliver(b, 1, attempts, backoff, 0.0, 0, script, threshold, recovery);
    DeliverFromEnds(b, b, 1, attempts, backoff, 0.0, script, threshold, recovery);
    EndsIff(b, k, attempts, script, threshold, recovery, ending);
    if EndsBy(b, k, attempts, script, threshold, recovery, ending) {
      OneEnd(b, k, d.tried, attempts, script, threshold, recovery, ending, d.ending);
    }
  }

  // ---------------------------------------------------------------------------
  // A dead transport behind a fresh breaker
  // ---------------------------------------------------------------------------

  ghost predicate Dead(script: Script) {
    forall k :: script(k).send == RequestError(true)
  }

  lemma {:induction false} DeadBeforeOpening(k: nat, attempts: nat, backoff: real, delay: real, script: Script,
                                             threshold: nat, recovery: real, openedAt: real)
    requires Dead(script) && 1 <= k <= threshold && k <= attempts
    ensures var d := Deliver(Breaker(Closed, k - 1, openedAt), k, attempts, backoff, delay, k - 1, script, threshold,
                             recovery);
            var pause := script(threshold + 1).begin - script(threshold).finish;
            d.sends <= threshold <==> attempts <= threshold || pause < recovery
    decreases attempts - k
  {
    var delay' := delay + Pause(backoff, k);
    assert Judge(script(k).send) == Refused(true);
    if k < attempts {
      if k < threshold {
        DeadBeforeOpening(k + 1, attempts, backoff, delay', script, threshold, recovery, openedAt);
      } else {
        var opened' := Breaker(Open, threshold, script(threshold).finish);
        SendsGrow(opened', k + 1, attempts, backoff, delay', threshold, script, threshold, recovery);
      }
    }
  }

  lemma {:induction false} SendsGrow(b: Breaker, k: nat, attempts: nat, backoff: real, delay: real, sends: nat,
                                     script: Script, threshold: nat, recovery: real)
    requires 1 <= k
    ensures var n := Deliver(b, k, attempts, backoff, delay, sends, script, threshold, recovery).sends;
            n >= sends && (Before(b, script(k).begin, recovery).1 <==> n > sends)
    decreases attempts - k
  {
    var delay' := delay + Pause(backoff, k);
    var a := script(k);
    var (b', admitted) := Before(b, a.begin, recovery);
    if admitted && Judge(a.send) == Refused(true) && k < attempts {
      SendsGrow(BreakerAfter(b', a, threshold), k + 1, attempts, backoff, delay', sends + 1, script, threshold,
                recovery);
    }
  }

  /** Each attempt begins when its backoff has been slept after the failure before it, at most `late` later. */
  ghost predicate SleepsWithin(script: Script, backoff: real, late: real) {
    forall k: nat :: k > 1 ==> BeginsWithin(script, k, backoff, late)
  }

  ghost predicate BeginsWithin(script: Script, k: nat, backoff: real, late: real)
    requires k > 1
  {
    0.0 <= script(k).begin - script(k - 1).finish - Pause(backoff, k) <= late
  }

  /** The sends of one delivery. */
  function SendsFrom(b: Breaker, attempts: nat, backoff: real, script: Script, threshold: nat, recovery: real): int {
    Deliver(b, 1, attempts, backoff, 0.0, 0, script, threshold, recovery).sends
  }

  /** The sends of one delivery through a fresh breaker. */
  function FreshSends(attempts: nat, backoff: real, script: Script, threshold: nat, recovery: real): int {
    SendsFrom(FRESH, attempts, backoff, script, threshold, recovery)
  }

  /**
   * For any clock readings: a dead transport gets at most `threshold` sends exactly when there are no more
   * attempts than that, or the next attempt begins before the recovery timeout is over.
   */
  lemma SparedExactly(attempts: nat, backoff: real, script: Script, threshold: nat, recovery: real)
    requires threshold >= 1 && attempts >= 1 && Dead(script)
    ensures var pause := script(threshold + 1).begin - script(threshold).finish;
            FreshSends(attempts, backoff, script, threshold, recovery) <= threshold
            <==> attempts <= threshold || pause < recovery
  {
    DeadBeforeOpening(1, attempts, backoff, 0.0, script, threshold, recovery, 0.0);
  }

  /** When the attempts of a dead transport begin if each is as late as it can be, and fails at once. */
  function LateBegin(k: nat, backoff: real, late: real): real {
    if k <= 1 then 0.0 else LateBegin(k - 1, backoff, late) + Pause(backoff, k) + late
  }

  function LateScript(backoff: real, late: real): Script {
    (k: nat) => Attempt(LateBegin(k, backoff, late), LateBegin(k, backoff, late), RequestError(true))
  }

  lemma LateScriptSleeps(backoff: real, late: real)
    requires late >= 0.0
    ensures Dead(LateScript(backoff, late)) && SleepsWithin(LateScript(backoff, late), backoff, late)
  {
    var script := LateScript(backoff, late);
    forall k: nat | k > 1 ensures BeginsWithin(script, k, backoff, late) {
      assert LateBegin(k, backoff, late) == LateBegin(k - 1, backoff, late) + Pause(backoff, k) + late;
    }
  }

  /** The pause before the attempt after the threshold. */
  lemma PauseAfterThreshold(backoff: real, threshold: nat)
    requires threshold >= 1
    ensures Pause(backoff, threshold + 1) == backoff * Pow2(threshold - 1) as real
  {
  }

  /**
   * From a fresh breaker, a dead transport gets at most `threshold` sends in every delivery whose attempts
   * begin at most `late` after their backoff, if and only if there are no more attempts than that, or the
   * backoff before the next one plus `late` is below the recovery timeout.
   */
  lemma DeadTransportIsSpared(attempts: nat, backoff: real, late: real, threshold: nat, recovery: real)
    requires threshold >= 1 && attempts >= 1 && late >= 0.0
    ensures (forall script :: Dead(script) && SleepsWithin(script, backoff, late) ==>
               FreshSends(attempts, backoff, script, threshold, recovery) <= threshold)
       <==> attempts <= threshold || backoff * Pow2(threshold - 1) as real + late < recovery
  {
    var next := threshold + 1;
    PauseAfterThreshold(backoff, threshold);
    if attempts <= threshold || backoff * Pow2(threshold - 1) as real + late < recovery {
      forall script | Dead(script) && SleepsWithin(script, backoff, late)
        ensures FreshSends(attempts, backoff, script, threshold, recovery) <= threshold
      {
        SparedExactly(attempts, backoff, script, threshold, recovery);
        assert BeginsWithin(script, next, backoff, late);
      }
    } else {
      var script := LateScript(backoff, late);
      LateScriptSleeps(backoff, late);
      SparedExactly(attempts, backoff, script, threshold, recovery);
      assert script(next).begin == script(next - 1).finish + Pause(backoff, next) + late;
    }
  }

  /** Attempts that begin exactly when their backoff is over: here each delivery meets the condition or none does. */
  lemma PunctualDeliveryIsSpared(attempts: nat, backoff: real, script: Script, threshold: nat, recovery: real)
    requires threshold >= 1 && attempts >= 1 && Dead(script) && SleepsWithin(script, backoff, 0.0)
    ensures FreshSends(attempts, backoff, script, threshold, recovery) <= threshold
       <==> attempts <= threshold || backoff * Pow2(threshold - 1) as real < recovery
  {
    var next := threshold + 1;
    SparedExactly(attempts, backoff, script, threshold, recovery);
    PauseAfterThreshold(backoff, threshold);
    assert BeginsWithin(script, next, backoff, 0.0);
  }

  // ---------------------------------------------------------------------------
  // A dead transport behind a breaker in any state
  // ---------------------------------------------------------------------------

  /** The attempts up to the one after the threshold each begin before the recovery timeout is over. */
  ghost predicate PausesShort(script: Script, threshold: nat, recovery: real) {
    forall k: nat :: 1 < k <= threshold + 1 ==> PauseShort(script, k, recovery)
  }

  ghost predicate PauseShort(script: Script, k: nat, recovery: real)
    requires k > 1
  {
    script(k).begin - script(k - 1).finish < recovery
  }

  /** Attempt k may still send as often as the breaker has failures to spare; then it is open, and blocks. */
  lemma {:induction false} DeadFrom(b: Breaker, k: nat, attempts: nat, backoff: real, delay: real, script: Script,
                                    threshold: nat, recovery: real)
    requires Dead(script) && PausesShort(script, threshold, recovery) && Consistent(b, threshold)
    requires 1 <= k <= attempts && k - 1 + Credit(b, threshold) <= threshold
    ensures Deliver(b, k, attempts, backoff, delay, k - 1, script, threshold, recovery).sends <= threshold
    decreases attempts - k
  {
    var delay' := delay + Pause(backoff, k);
    var (b', admitted) := Before(b, script(k).begin, recovery);
    assert Judge(script(k).send) == Refused(true);
    if admitted && k < attempts {
      var failed := OnFailure(b', script(k).finish, threshold);
      if failed.status.Open? {
        assert PauseShort(script, k + 1, recovery);
        SendsGrow(failed, k + 1, attempts, backoff, delay', k, script, threshold, recovery);
      } else {
        DeadFrom(failed, k + 1, attempts, backoff, delay', script, threshold, recovery);
      }
    }
  }

  lemma {:induction false} Pow2Grows(i: nat, j: nat)
    requires i <= j
    ensures 1 <= Pow2(i) <= Pow2(j)
  {
    if i < j {
      Pow2Grows(i, j - 1);
    } else if i > 0 {
      Pow2Grows(i - 1, i - 1);
    }
  }

  lemma PauseGrows(backoff: real, k: nat, threshold: nat)
    requires backoff >= 0.0 && 1 < k <= threshold + 1
    ensures Pause(backoff, k) <= backoff * Pow2(threshold - 1) as real
  {
    Pow2Grows(k - 2, threshold - 1);
  }

  lemma SparedFromConsistent(b: Breaker, attempts: nat, backoff: real, late: real, script: Script, threshold: nat,
                             recovery: real)
    requires threshold >= 1 && attempts >= 1 && backoff >= 0.0 && late >= 0.0 && Consistent(b, threshold)
    requires Dead(script) && SleepsWithin(script, backoff, late)
    requires attempts <= threshold || backoff * Pow2(threshold - 1) as real + late < recovery
    ensures SendsFrom(b, attempts, backoff, script, threshold, recovery) <= threshold
  {
    if attempts <= threshold {
      SendsAreAdmittedAttempts(b, attempts, backoff, script, threshold, recovery);
      DeliveryOutcome(b, attempts, backoff, script, threshold, recovery);
    } else {
      forall k: nat | 1 < k <= threshold + 1 ensures PauseShort(script, k, recovery) {
        assert BeginsWithin(script, k, backoff, late);
        PauseGrows(backoff, k, threshold);
      }
      DeadFrom(b, 1, attempts, backoff, 0.0, script, threshold, recovery);
    }
  }

  /**
   * Whatever calls went through the breaker before and however they interleaved: a dead transport gets at most
   * `threshold` sends in every delivery whose attempts begin at most `late` after their backoff, if and only
   * if there are no more attempts than that, or the backoff before the next one plus `late` is below the
   * recovery timeout.
   */
  lemma SparedFromEveryState(attempts: nat, backoff: real, late: real, threshold: nat, recovery: real)
    requires threshold >= 1 && attempts >= 1 && backoff >= 0.0 && late >= 0.0
    ensures (forall steps, script :: Dead(script) && SleepsWithin(script, backoff, late) ==>
               SendsFrom(Run(steps, threshold, recovery), attempts, backoff, script, threshold, recovery) <= threshold)
       <==> attempts <= threshold || backoff * Pow2(threshold - 1) as real + late < recovery
  {
    if attempts <= threshold || backoff * Pow2(threshold - 1) as real + late < recovery {
      forall steps, script | Dead(script) && SleepsWithin(script, backoff, late)
        ensures SendsFrom(Run(steps, threshold, recovery), attempts, backoff, script, threshold, recovery) <= threshold
      {
        ClosedIffBelowThreshold(steps, threshold, recovery);
        SparedFromConsistent(Run(steps, threshold, recovery), attempts, backoff, late, script, threshold, recovery);
      }
    } else {
      DeadTransportIsSpared(attempts, backoff, late, threshold, recovery);
      var script :| Dead(script) && SleepsWithin(script, backoff, late)
                    && FreshSends(attempts, backoff, script, threshold, recovery) > threshold;
      assert Run([], threshold, recovery) == FRESH;
    }
  }

  /** The client's own breaker, three failures and 60 seconds, and its clamped settings. */
  lemma ControlPlaneIsSpared(maxAttempts: int, initialBackoff: real, late: real)
    requires late >= 0.0
    ensures var attempts, backoff := MaxAttempts(maxAttempts), Backoff(initialBackoff);
            ((forall steps, script :: Dead(script) && SleepsWithin(script, backoff, late) ==>
                SendsFrom(Run(steps, 3, 60.0), attempts, backoff, script, 3, 60.0) <= 3)
             <==> attempts <= 3 || 4.0 * backoff + late < 60.0)
  {
    SparedFromEveryState(MaxAttempts(maxAttempts), Backoff(initialBackoff), late, 3, 60.0);
    assert Pow2(2) == 4;
  }

  // ---------------------------------------------------------------------------
  // Delivery metrics over a run
  // ---------------------------------------------------------------------------

  datatype Metrics = Metrics(totalAttempts: int, successful: int, failed: int, breakerOpens: int, retryExhausted: int)

  const NO_METRICS: Metrics := Metrics(0, 0, 0, 0, 0)

  function CountedAs(m: Metrics, tried: int, ending: Option<Ending>): Metrics {
    Metrics(m.totalAttempts + tried,
            m.successful + (if ending == Some(Succeeded) then 1 else 0),
            m.failed + (if ending.Some? && ending != Some(Succeeded) then 1 else 0),
            m.breakerOpens + (if ending == Some(Blocked) then 1 else 0),
            m.retryExhausted + (if ending == Some(Exhausted) then 1 else 0))
  }

  function Counted(m: Metrics, d: Delivery): Metrics {
    CountedAs(m, d.tried, Some(d.ending))
  }

  datatype Request = Request(maxAttempts: int, initialBackoff: real, script: Script)

  /** The deliveries of a run, one after another through the same breaker. */
  function Deliveries(requests: seq<Request>, threshold: nat, recovery: real): seq<Delivery> {
    if requests == [] then []
    else
      var before := Deliveries(requests[..|requests| - 1], threshold, recovery);
      var r := requests[|requests| - 1];
      var b := if before == [] then FRESH else before[|before| - 1].breaker;
      before + [Deliver(b, 1, MaxAttempts(r.maxAttempts), Backoff(r.initialBackoff), 0.0, 0, r.script, threshold,
                        recovery)]
  }

  function Tally(ds: seq<Delivery>): Metrics {
    if ds == [] then NO_METRICS else Counted(Tally(ds[..|ds| - 1]), ds[|ds| - 1])
  }

  function Sends(ds: seq<Delivery>): int {
    if ds == [] then 0 else Sends(ds[..|ds| - 1]) + ds[|ds| - 1].sends
  }

  function EndedBy(ending: Ending): Delivery -> bool {
    (d: Delivery) => d.ending == ending
  }

  lemma SendsAreAdmittedAttempts(b: Breaker, attempts: nat, backoff: real, script: Script, threshold: nat,
                                 recovery: real)
    requires attempts >= 1
    ensures var d := Deliver(b, 1, attempts, backoff, 0.0, 0, script, threshold, recovery);
            d.sends == if d.ending.Blocked? then d.tried - 1 else d.tried
  {
    DeliveryOutcome(b, attempts, backoff, script, threshold, recovery);
  }

  ghost predicate BalancedMetrics(ds: seq<Delivery>) {
    var m := Tally(ds);
    && |ds| == m.successful + m.failed
    && m.successful == |Filter(ds, EndedBy(Succeeded))|
    && m.failed == m.breakerOpens + m.retryExhausted + |Filter(ds, EndedBy(NonRetryable))|
    && m.totalAttempts == Sends(ds) + m.breakerOpens
  }

  lemma BalanceExtends(ds: seq<Delivery>, d: Delivery)
    requires BalancedMetrics(ds) && d.sends == (if d.ending.Blocked? then d.tried - 1 else d.tried)
    ensures BalancedMetrics(ds + [d])
  {
    var all := ds + [d];
    assert all[..|all| - 1] == ds && all[|all| - 1] == d;
    assert Tally(all) == Counted(Tally(ds), d) && Sends(all) == Sends(ds) + d.sends;
    FilterExtend(ds, d, EndedBy(Succeeded));
    FilterExtend(ds, d, EndedBy(NonRetryable));
  }

  /**
   * Over any run: deliveries are successes plus failures, failures are blocked plus exhausted plus
   * non-retryable ones, and attempts are sends plus blocked ones.
   */
  lemma {:induction false} MetricsBalance(requests: seq<Request>, threshold: nat, recovery: real)
    ensures var ds := Deliveries(requests, threshold, recovery);
            var m := Tally(ds);
            && |ds| == |requests| == m.successful + m.failed
            && m.successful == |Filter(ds, EndedBy(Succeeded))|
            && m.failed == m.breakerOpens + m.retryExhausted + |Filter(ds, EndedBy(NonRetryable))|
            && m.totalAttempts == Sends(ds) + m.breakerOpens
  {
    if requests == [] {
    } else {
      var front, r := requests[..|requests| - 1], requests[|requests| - 1];
      MetricsBalance(front, threshold, recovery);
      var before := Deliveries(front, threshold, recovery);
      assert BalancedMetrics(before);
      var b := if before == [] then FRESH else before[|before| - 1].breaker;
      var attempts, backoff := MaxAttempts(r.maxAttempts), Backoff(r.initialBackoff);
      SendsAreAdmittedAttempts(b, attempts, backoff, r.script, threshold, recovery);
      var d := Deliver(b, 1, attempts, backoff, 0.0, 0, r.script, threshold, recovery);
      assert Deliveries(requests, threshold, recovery) == before + [d];
      BalanceExtends(before, d);
    }
    assert BalancedMetrics(Deliveries(requests, threshold, recovery));
  }

  // ---------------------------------------------------------------------------
  // A dead transport over a run
  // ---------------------------------------------------------------------------

  /** The calls of the attempts from `k` to `last`. */
  function CallsOf(script: Script, k: nat, last: int): seq<Call>
    decreases last - k
  {
    if k > last then [] else [Call(script(k).begin, script(k).finish)] + CallsOf(script, k + 1, last)
  }

  /** A delivery over a dead transport is a sequence of failing calls: as many are executed as are sent. */
  lemma {:induction false} DeliveryIsCalls(b: Breaker, k: nat, attempts: nat, backoff: real, delay: real, sends: nat,
                                           script: Script, threshold: nat, recovery: real)
    requires 1 <= k && Dead(script)
    ensures var d := Deliver(b, k, attempts, backoff, delay, sends, script, threshold, recovery);
            && d.tried >= k
            && d.sends == sends + Executed(b, CallsOf(script, k, d.tried), threshold, recovery)
            && d.breaker == AfterCalls(b, CallsOf(script, k, d.tried), threshold, recovery)
    decreases attempts - k
  {
    var (b', admitted) := Attempted(b, script(k), threshold, recovery);
    var delay' := delay + Pause(backoff, k);
    assert script(k).send == RequestError(true);
    DeliverUnfolds(b, k, attempts, backoff, delay, sends, script, threshold, recovery);
    if admitted && k < attempts {
      DeliveryIsCalls(b', k + 1, attempts, backoff, delay', sends + 1, script, threshold, recovery);
      var d := Deliver(b', k + 1, attempts, backoff, delay', sends + 1, script, threshold, recovery);
      FirstCall(script, k, d.tried);
    } else {
      FirstCall(script, k, k);
      assert CallsOf(script, k + 1, k) == [];
    }
  }

  lemma FirstCall(script: Script, k: nat, last: int)
    requires k <= last
    ensures var calls := CallsOf(script, k, last);
            && calls != [] && calls[0] == Call(script(k).begin, script(k).finish)
            && calls[1..] == CallsOf(script, k + 1, last)
  {
  }

  /** All calls of a run, delivery after delivery. */
  function AllCalls(requests: seq<Request>, threshold: nat, recovery: real): seq<Call> {
    if requests == [] then []
    else
      var front, r := requests[..|requests| - 1], requests[|requests| - 1];
      var ds := Deliveries(requests, threshold, recovery);
      AllCalls(front, threshold, recovery) + CallsOf(r.script, 1, ds[|ds| - 1].tried)
  }

  function BreakerAfterAll(ds: seq<Delivery>): Breaker {
    if ds == [] then FRESH else ds[|ds| - 1].breaker
  }

  lemma {:induction false} RunIsCalls(requests: seq<Request>, threshold: nat, recovery: real)
    requires forall i :: 0 <= i < |requests| ==> Dead(requests[i].script)
    ensures var ds, calls := Deliveries(requests, threshold, recovery), AllCalls(requests, threshold, recovery);
            && Sends(ds) == Executed(FRESH, calls, threshold, recovery)
            && BreakerAfterAll(ds) == AfterCalls(FRESH, calls, threshold, recovery)
  {
    if requests == [] {
    } else {
      var front, r := requests[..|requests| - 1], requests[|requests| - 1];
      RunIsCalls(front, threshold, recovery);
      var before, ds := Deliveries(front, threshold, recovery), Deliveries(requests, threshold, recovery);
      var d := ds[|ds| - 1];
      assert ds[..|ds| - 1] == before;
      DeliveryIsCalls(BreakerAfterAll(before), 1, MaxAttempts(r.maxAttempts), Backoff(r.initialBackoff), 0.0, 0,
                      r.script, threshold, recovery);
      ExecutedConcat(FRESH, AllCalls(front, threshold, recovery), CallsOf(r.script, 1, d.tried), threshold, recovery);
    }
  }

  /**
   * Over any run of deliveries, one after another, through a fresh breaker, a dead transport gets at most
   * threshold + floor(T / recovery) sends in a span T, however many deliveries and retries there are.
   */
  lemma DeadTransportLoad(requests: seq<Request>, from: real, until: real, threshold: nat, recovery: real)
    requires threshold >= 1 && recovery > 0.0 && from <= until
    requires forall i :: 0 <= i < |requests| ==> Dead(requests[i].script)
    requires Sequential(AllCalls(requests, threshold, recovery), from, until)
    ensures Sends(Deliveries(requests, threshold, recovery)) <= threshold + ((until - from) / recovery).Floor
  {
    RunIsCalls(requests, threshold, recovery);
    assert Run([], threshold, recovery) == FRESH;
    LoadBound([], AllCalls(requests, threshold, recovery), from, until, threshold, recovery);
  }

  // ---------------------------------------------------------------------------
  // The client
  // ---------------------------------------------------------------------------

  /** `attempts` is the attempt of a success or a refusal for good, and otherwise the configured maximum. */
  datatype PublishResult = PublishResult(delivered: bool, attempts: int, totalDelay: real, breakerTriggered: bool)

  function ResultOf(d: Delivery, attempts: nat): PublishResult {
    PublishResult(d.ending.Succeeded?,
                  if d.ending.Succeeded? || d.ending.NonRetryable? then d.tried else attempts,
                  d.totalDelay, d.ending.Blocked?)
  }

  /** Some attempt is made and ends the delivery so. */
  ghost predicate EndsSo(b: Breaker, attempts: nat, script: Script, threshold: nat, recovery: real, ending: Ending) {
    exists k: nat :: EndsWith(b, k, attempts, script, threshold, recovery, ending)
  }

  lemma EndingIff(b: Breaker, attempts: nat, backoff: real, script: Script, threshold: nat, recovery: real,
                  ending: Ending)
    requires attempts >= 1
    ensures Deliver(b, 1, attempts, backoff, 0.0, 0, script, threshold, recovery).ending == ending
       <==> EndsSo(b, attempts, script, threshold, recovery, ending)
  {
    var d := Deliver(b, 1, attempts, backoff, 0.0, 0, script, threshold, recovery);
    DeliveryOutcome(b, attempts, backoff, script, threshold, recovery);
    DeliveryEndsIff(b, attempts, backoff, script, threshold, recovery, ending, d.tried);
    if EndsSo(b, attempts, script, threshold, recovery, ending) {
      var k: nat :| EndsWith(b, k, attempts, script, threshold, recovery, ending);
      DeliveryEndsIff(b, attempts, backoff, script, threshold, recovery, ending, k);
    }
  }

  /** What a result says, in terms of the breaker and the responses. */
  lemma ResultSays(b: Breaker, attempts: nat, backoff: real, script: Script, threshold: nat, recovery: real)
    requires attempts >= 1
    ensures var r := ResultOf(Deliver(b, 1, attempts, backoff, 0.0, 0, script, threshold, recovery), attempts);
            && (r.delivered <==> EndsSo(b, attempts, script, threshold, recovery, Succeeded))
            && (r.breakerTriggered <==> EndsSo(b, attempts, script, threshold, recovery, Blocked))
  {
    EndingIff(b, attempts, backoff, script, threshold, recovery, Succeeded);
    EndingIff(b, attempts, backoff, script, threshold, recovery, Blocked);
  }

  /** The delay is that of `k` attempts, which are reported as made only for a success or a refusal for good. */
  ghost predicate Counts(r: PublishResult, attempts: nat, backoff: real, k: nat, ending: Ending) {
    && k >= 1 && r.totalDelay == backoff * (Pow2(k - 1) as real - 1.0)
    && r.attempts == if ending == Succeeded || ending == NonRetryable then k else attempts
  }

  lemma DeliveryCounts(b: Breaker, attempts: nat, backoff: real, script: Script, threshold: nat, recovery: real)
    requires attempts >= 1
    ensures var d := Deliver(b, 1, attempts, backoff, 0.0, 0, script, threshold, recovery);
            d.tried >= 1 && Counts(ResultOf(d, attempts), attempts, backoff, d.tried, d.ending)
  {
    DeliveryOutcome(b, attempts, backoff, script, threshold, recovery);
  }

  /** What a result counts, by the attempt that ended the delivery. */
  lemma ResultCounts(b: Breaker, attempts: nat, backoff: real, script: Script, threshold: nat, recovery: real, k: nat,
                     ending: Ending)
    requires attempts >= 1 && EndsWith(b, k, attempts, script, threshold, recovery, ending)
    ensures Counts(ResultOf(Deliver(b, 1, attempts, backoff, 0.0, 0, script, threshold, recovery), attempts),
                   attempts, backoff, k, ending)
  {
    DeliveryCounts(b, attempts, backoff, script, threshold, recovery);
    DeliveryEndsIff(b, attempts, backoff, script, threshold, recovery, ending, k);
  }

  class ControlPlaneClient {
    const breaker: CircuitBreaker
    var metrics: Metrics

    constructor (breaker: CircuitBreaker)
      ensures this.breaker == breaker && metrics == NO_METRICS
    {
      this.breaker, metrics := breaker, NO_METRICS;
    }

    /** One attempt: through the breaker, counted, and whether it ends the delivery. */
    method AttemptOnce(a: Attempt, k: nat, attempts: nat) returns (ending: Option<Ending>)
      modifies this, breaker
      ensures var (b', admitted) := Attempted(old(breaker.State()), a, breaker.failureThreshold,
                                              breaker.recoveryTimeoutSeconds);
              breaker.State() == b' && ending == EndingAt(admitted, Judge(a.send), k, attempts)
      ensures metrics == CountedAs(old(metrics), 1, ending)
    {
      metrics := metrics.(totalAttempts := metrics.totalAttempts + 1);
      var admitted := breaker.BeforeCall(a.begin);
      if !admitted {
        metrics := metrics.(breakerOpens := metrics.breakerOpens + 1, failed := metrics.failed + 1);
        return Some(Blocked);
      }
      if a.send.Answered? {
        breaker.AfterSuccess();
      } else {
        breaker.AfterFailure(a.finish);
      }
      match Judge(a.send)
      case Accepted =>
        metrics := metrics.(successful := metrics.successful + 1);
        return Some(Succeeded);
      case Refused(retryable) =>
        if !retryable {
          metrics := metrics.(failed := metrics.failed + 1);
          return Some(NonRetryable);
        }
        if k >= attempts {
          metrics := metrics.(failed := metrics.failed + 1, retryExhausted := metrics.retryExhausted + 1);
          return Some(Exhausted);
        }
        return None;
    }

    /** Before every attempt but the first, sleep twice as long as before. */
    method Sleep(totalDelay: real, backoff: real, attempt: nat) returns (total: real)
      ensures total == totalDelay + Pause(backoff, attempt)
    {
      total := totalDelay;
      if attempt > 1 {
        var delay := backoff * Pow2(attempt - 2) as real;
        total := total + delay;
      }
    }

    /** The body of the attempt loop; `d` is the delivery from attempt `k` on. */
    method SleepAndAttempt(k: nat, attempts: nat, backoff: real, totalDelay: real, script: Script, ghost d: Delivery)
      returns (total: real, ending: Option<Ending>)
      requires 1 <= k <= attempts
      requires d == Deliver(breaker.State(), k, attempts, backoff, totalDelay, k - 1, script,
                            breaker.failureThreshold, breaker.recoveryTimeoutSeconds)
      modifies this, breaker
      ensures metrics == CountedAs(old(metrics), 1, ending)
      ensures ending.Some? ==>
        d.ending == ending.value && d.tried == k && d.totalDelay == total && d.breaker == breaker.State()
      ensures ending.None? ==>
        && k < attempts
        && d == Deliver(breaker.State(), k + 1, attempts, backoff, total, k, script,
                        breaker.failureThreshold, breaker.recoveryTimeoutSeconds)
    {
      DeliverUnfolds(breaker.State(), k, attempts, backoff, totalDelay, k - 1, script,
                     breaker.failureThreshold, breaker.recoveryTimeoutSeconds);
      total := Sleep(totalDelay, backoff, k);
      ending := AttemptOnce(script(k), k, attempts);
    }

    method PublishEventWithRetryResult(maxAttempts: int, initialBackoff: real, script: Script)
      returns (result: PublishResult, ghost delivery: Delivery)
      modifies this, breaker
      ensures delivery == Deliver(old(breaker.State()), 1, MaxAttempts(maxAttempts), Backoff(initialBackoff), 0.0, 0,
                                  script, breaker.failureThreshold, breaker.recoveryTimeoutSeconds)
      ensures breaker.State() == delivery.breaker
      ensures metrics == Counted(old(metrics), delivery)
      ensures result == ResultOf(delivery, MaxAttempts(maxAttempts))
      ensures result.delivered <==> EndsSo(old(breaker.State()), MaxAttempts(maxAttempts), script,
                                           breaker.failureThreshold, breaker.recoveryTimeoutSeconds, Succeeded)
    {
      var attempts, backoff := MaxAttempts(maxAttempts), Backoff(initialBackoff);
      var totalDelay := 0.0;
      delivery := Deliver(breaker.State(), 1, attempts, backoff, 0.0, 0, script,
                          breaker.failureThreshold, breaker.recoveryTimeoutSeconds);
      ghost var before := breaker.State();
      var attempt := 1;
      while true
        invariant 1 <= attempt <= attempts
        invariant delivery == Deliver(breaker.State(), attempt, attempts, backoff, totalDelay, attempt - 1, script,
                                      breaker.failureThreshold, breaker.recoveryTimeoutSeconds)
        invariant metrics == CountedAs(old(metrics), attempt - 1, None)
        decreases attempts - attempt
      {
        var ending;
        totalDelay, ending := SleepAndAttempt(attempt, attempts, backoff, totalDelay, script, delivery);
        if ending.Some? {
          var reported := if ending.value.Succeeded? || ending.value.NonRetryable? then attempt else attempts;
          result := PublishResult(ending.value.Succeeded?, reported, totalDelay, ending.value.Blocked?);
          ResultSays(before, attempts, backoff, script, breaker.failureThreshold, breaker.recoveryTimeoutSeconds);
          return;
        }
        attempt := attempt + 1;
      }
    }
  }
}
