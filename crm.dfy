/**
 * `push_to_systemeio` (webapp/app.py): registers a contact with a tag at Systeme.io,
 * trying at most three times with a linear backoff, and reports `(ok, status, error)`.
 *
 * The HTTP call is the injected `Transport`: `send(k)` is what attempt `k` (1, 2 or 3)
 * gets back. `time.sleep(0.8 * attempt)` is recorded as a delay of `8 * attempt`
 * tenths of a second.
 */
module Crm {
  import opened Optional
  import opened Text

  /** What one `requests.post` produced: a response, or a `RequestException` whose `str()` is `message`. */
  datatype Attempt = Reply(code: nat, body: string) | Raised(message: string)

  /** The triple `(ok, status, error)` that `push_to_systemeio` returns. */
  datatype PushResult = PushResult(ok: bool, status: string, error: Option<string>)

  /** A call's result together with its effects: the requests it sent and the sleeps it took, in order. */
  datatype PushRun = PushRun(result: PushResult, requests: nat, sleeps: seq<nat>)

  /** `SYSTEMEIO_EMAIL` and `SYSTEMEIO_TOKEN`; the tag id is passed separately, as in the source. */
  datatype CrmConfig = CrmConfig(email: string, token: string)

  type Transport = nat -> Attempt

  const MaxAttempts: nat := 3
  const BodyLimit: nat := 500
  const SkipStatus: string := "skipped_missing_config"
  const SkipMessage: string := "SYSTEMEIO_EMAIL/TOKEN/TAG_ID manquants"
  const ErrorStatus: string := "error"
  const UnknownError: string := "unknown_error"

  /** `SYSTEMEIO_EMAIL and SYSTEMEIO_TOKEN and tag_id`: all three non-empty. */
  predicate IsConfigured(cfg: CrmConfig, tagId: string) {
    cfg.email != "" && cfg.token != "" && tagId != ""
  }

  /** A response that ends the loop: a 2xx code, or one of the codes line 137 lists. */
  predicate IsDelivered(a: Attempt)
    ensures IsDelivered(a) <==> a.Reply? && (200 <= a.code < 300 || a.code == 409)
  {
    a.Reply? && ((200 <= a.code < 300) || a.code in {200, 201, 202, 409})
  }

  /** `last_error` after a failed attempt: the status and the first 500 characters of the body, or the exception text. */
  function AttemptError(a: Attempt): (e: string)
    requires !IsDelivered(a)
    ensures a.Raised? ==> e == a.message
    ensures a.Reply? ==> |e| >= 5 && e[..5] == "HTTP " && |e| <= 7 + |NatToString(a.code)| + BodyLimit
    ensures a.Reply? && |a.body| <= BodyLimit ==> e == "HTTP " + NatToString(a.code) + ": " + a.body
  {
    match a
    case Reply(code, body) => "HTTP " + NatToString(code) + ": " + Take(body, BodyLimit)
    case Raised(message) => message
  }

  /** `0.8 * attempt` seconds, in tenths. */
  function Backoff(attempt: nat): nat {
    8 * attempt
  }

  /** The delays slept after each of the first `n` attempts. */
  function Backoffs(n: nat): (d: seq<nat>)
    ensures |d| == n
    ensures forall i :: 0 <= i < n ==> d[i] == Backoff(i + 1)
  {
    if n == 0 then [] else Backoffs(n - 1) + [Backoff(n)]
  }

  /** `last_error or "unknown_error"`: an absent or empty error reads as "unknown_error". */
  function FinalError(last: Option<string>): (e: string)
    ensures e != ""
    ensures last.Some? && last.value != "" ==> e == last.value
    ensures last.None? || last.value == "" ==> e == UnknownError
  {
    if last.None? || last.value == "" then UnknownError else last.value
  }

  /**
   * The retry loop from attempt `attempt` on, with `last` the error recorded so far
   * and `sleeps` the delays already taken.
   */
  function RetryFrom(send: Transport, attempt: nat, last: Option<string>, sleeps: seq<nat>): (run: PushRun)
    requires 1 <= attempt <= MaxAttempts + 1
    ensures run.requests <= MaxAttempts && (attempt <= MaxAttempts ==> attempt <= run.requests)
    ensures sleeps <= run.sleeps && |run.sleeps| <= |sleeps| + MaxAttempts + 1 - attempt
    ensures run.result.ok <==> run.result.error == None
    ensures !run.result.ok ==> run.result.status == ErrorStatus && run.requests == MaxAttempts
                               && run.result.error.value != ""
    decreases MaxAttempts + 1 - attempt
  {
    if attempt > MaxAttempts then
      PushRun(PushResult(false, ErrorStatus, Some(FinalError(last))), MaxAttempts, sleeps)
    else
      var reply := send(attempt);
      if IsDelivered(reply) then
        PushRun(PushResult(true, NatToString(reply.code), None), attempt, sleeps)
      else
        RetryFrom(send, attempt + 1, Some(AttemptError(reply)), sleeps + [Backoff(attempt)])
  }

  /** The whole of `push_to_systemeio`: the configuration check, then the loop. */
  function Push(cfg: CrmConfig, tagId: string, send: Transport): (run: PushRun)
    ensures run.requests <= MaxAttempts && |run.sleeps| <= MaxAttempts
    ensures IsConfigured(cfg, tagId) <==> run.requests >= 1
    ensures run.result.ok <==> run.result.error == None
    ensures !run.result.ok ==> run.result.error.value != ""
  {
    if !IsConfigured(cfg, tagId) then
      PushRun(PushResult(false, SkipStatus, Some(SkipMessage)), 0, [])
    else
      RetryFrom(send, 1, None, [])
  }

  /** The loop as the source writes it, proved to behave as `Push` says. */
  method PushToSystemeio(cfg: CrmConfig, tagId: string, send: Transport)
    returns (result: PushResult, requests: nat, sleeps: seq<nat>)
    ensures PushRun(result, requests, sleeps) == Push(cfg, tagId, send)
  {
    if !(cfg.email != "" && cfg.token != "" && tagId != "") {
      return PushResult(false, SkipStatus, Some(SkipMessage)), 0, [];
    }
    var lastError: Option<string> := None;
    requests, sleeps := 0, [];
    for attempt := 1 to MaxAttempts + 1
      invariant requests == attempt - 1
      invariant RetryFrom(send, attempt, lastError, sleeps) == RetryFrom(send, 1, None, [])
    {
      requests := attempt;
      match send(attempt) {
        case Reply(code, body) =>
          if 200 <= code < 300 {
            return PushResult(true, NatToString(code), None), requests, sleeps;
          }
          if code in {200, 201, 202, 409} {
            return PushResult(true, NatToString(code), None), requests, sleeps;
          }
          lastError := Some("HTTP " + NatToString(code) + ": " + Take(body, BodyLimit));
        case Raised(message) =>
          lastError := Some(message);
      }
      sleeps := sleeps + [Backoff(attempt)];
    }
    result := PushResult(false, ErrorStatus, Some(FinalError(lastError)));
  }

  // ---------------------------------------------------------------------------
  // What a push does
  // ---------------------------------------------------------------------------

  /** The loop invariant of `RetryFrom`, carried to the end of the loop. */
  lemma {:induction false} RetryFromFacts(send: Transport, attempt: nat, last: Option<string>, sleeps: seq<nat>)
    requires 1 <= attempt <= MaxAttempts + 1
    requires sleeps == Backoffs(attempt - 1)
    requires forall k :: 1 <= k < attempt ==> !IsDelivered(send(k))
    requires attempt > 1 ==> last == Some(AttemptError(send(attempt - 1)))
    ensures var run := RetryFrom(send, attempt, last, sleeps);
      && 1 <= run.requests <= MaxAttempts
      && (forall k :: 1 <= k < run.requests ==> !IsDelivered(send(k)))
      && (run.result.ok <==> IsDelivered(send(run.requests)))
      && (run.result.ok ==>
            run.result == PushResult(true, NatToString(send(run.requests).code), None)
            && run.sleeps == Backoffs(run.requests - 1))
      && (!run.result.ok ==>
            run.requests == MaxAttempts
            && run.result == PushResult(false, ErrorStatus, Some(FinalError(Some(AttemptError(send(MaxAttempts))))))
            && run.sleeps == Backoffs(MaxAttempts))
    decreases MaxAttempts + 1 - attempt
  {
    if attempt <= MaxAttempts && !IsDelivered(send(attempt)) {
      RetryFromFacts(send, attempt + 1, Some(AttemptError(send(attempt))), sleeps + [Backoff(attempt)]);
    }
  }

  /** Missing configuration: no request, no sleep, and the fixed skip triple. */
  lemma PushSkipped(cfg: CrmConfig, tagId: string, send: Transport)
    requires !IsConfigured(cfg, tagId)
    ensures Push(cfg, tagId, send) == PushRun(PushResult(false, SkipStatus, Some(SkipMessage)), 0, [])
  {
  }

  /**
   * A configured push sends one to three requests and stops at the first delivered
   * one: every earlier attempt failed, and it succeeds exactly when the last one sent did.
   */
  lemma PushStopsAtFirstDelivery(cfg: CrmConfig, tagId: string, send: Transport)
    requires IsConfigured(cfg, tagId)
    ensures var run := Push(cfg, tagId, send);
      && 1 <= run.requests <= MaxAttempts
      && (forall k :: 1 <= k < run.requests ==> !IsDelivered(send(k)))
      && (run.result.ok <==> IsDelivered(send(run.requests)))
  {
    RetryFromFacts(send, 1, None, []);
  }

  /** A delivered push reports the response code as its status and no error, having slept after each failure. */
  lemma PushDelivered(cfg: CrmConfig, tagId: string, send: Transport)
    requires IsConfigured(cfg, tagId)
    requires Push(cfg, tagId, send).result.ok
    ensures var run := Push(cfg, tagId, send);
      && IsDelivered(send(run.requests))
      && run.result.error == None
      && run.result.status == NatToString(send(run.requests).code)
      && ParseNat(run.result.status) == send(run.requests).code
      && run.sleeps == Backoffs(run.requests - 1)
  {
    RetryFromFacts(send, 1, None, []);
    ParseNatToString(send(Push(cfg, tagId, send).requests).code);
  }

  /**
   * A push that fails has made all three attempts and slept 0.8 s, 1.6 s and 2.4 s,
   * the last sleep coming after the third attempt; it reports the third attempt's error.
   */
  lemma PushFailed(cfg: CrmConfig, tagId: string, send: Transport)
    requires IsConfigured(cfg, tagId)
    requires !Push(cfg, tagId, send).result.ok
    ensures var run := Push(cfg, tagId, send);
      && run.requests == MaxAttempts
      && (forall k :: 1 <= k <= MaxAttempts ==> !IsDelivered(send(k)))
      && run.result.status == ErrorStatus
      && run.result.error == Some(FinalError(Some(AttemptError(send(MaxAttempts)))))
      && run.sleeps == [8, 16, 24]
  {
    RetryFromFacts(send, 1, None, []);
    assert Backoffs(3) == [8, 16, 24];
  }

  /** After three failed HTTP responses the error is `HTTP <code>: ` and at most 500 characters of the last body. */
  lemma PushFailedHttpError(cfg: CrmConfig, tagId: string, send: Transport, code: nat, body: string)
    requires IsConfigured(cfg, tagId)
    requires forall k :: 1 <= k <= MaxAttempts ==> !IsDelivered(send(k))
    requires send(MaxAttempts) == Reply(code, body)
    ensures var e := Push(cfg, tagId, send).result.error;
      && e.Some?
      && e.value == "HTTP " + NatToString(code) + ": " + Take(body, BodyLimit)
      && |Take(body, BodyLimit)| <= BodyLimit && Take(body, BodyLimit) <= body
  {
    RetryFromFacts(send, 1, None, []);
    assert !IsDelivered(send(1)) && !IsDelivered(send(2)) && !IsDelivered(send(3));
  }

  /**
   * When the third attempt raised an exception, its text is the error; an empty
   * text is reported as "unknown_error".
   */
  lemma PushFailedException(cfg: CrmConfig, tagId: string, send: Transport, message: string)
    requires IsConfigured(cfg, tagId)
    requires forall k :: 1 <= k <= MaxAttempts ==> !IsDelivered(send(k))
    requires send(MaxAttempts) == Raised(message)
    ensures Push(cfg, tagId, send).result.error == Some(if message == "" then UnknownError else message)
  {
    RetryFromFacts(send, 1, None, []);
    assert !IsDelivered(send(1)) && !IsDelivered(send(2)) && !IsDelivered(send(3));
  }

  /** A 409 answer to the first attempt counts as delivered: status "409", no retry, no sleep. */
  lemma ConflictIsDelivered(cfg: CrmConfig, tagId: string, send: Transport, body: string)
    requires IsConfigured(cfg, tagId)
    requires send(1) == Reply(409, body)
    ensures Push(cfg, tagId, send) == PushRun(PushResult(true, "409", None), 1, [])
  {
    assert NatToString(409) == "409";
  }

  /** A 500 on every attempt: three requests, delays [8, 16, 24], and `HTTP 500: ` with the body as the error. */
  lemma ServerErrorEveryTime(cfg: CrmConfig, tagId: string, send: Transport, body: string)
    requires IsConfigured(cfg, tagId)
    requires forall k :: send(k) == Reply(500, body)
    requires |body| <= BodyLimit
    ensures Push(cfg, tagId, send) == PushRun(PushResult(false, ErrorStatus, Some("HTTP 500: " + body)), 3, [8, 16, 24])
  {
    assert NatToString(500) == "500";
    assert !IsDelivered(send(1)) && !IsDelivered(send(2)) && !IsDelivered(send(3));
    PushStopsAtFirstDelivery(cfg, tagId, send);
    PushFailed(cfg, tagId, send);
    PushFailedHttpError(cfg, tagId, send, 500, body);
    assert "HTTP " + "500" + ": " + body == "HTTP 500: " + body;
  }
}
