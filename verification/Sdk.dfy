/** Payment-provider calls: the retry block, the idempotency cache around it, and what
    both promise over whole sequences of calls. */
module Sdk {
  import opened Versioning

  type Data = map<string, string>

  datatype SDKResponse = SDKResponse(success: bool, data: Data, error: Option<string>, errorCode: Option<string>)

  /** A cached dictionary: any of the four fields may be missing. */
  datatype Document = Document(success: Option<bool>, data: Option<Data>, error: Option<string>, errorCode: Option<string>)

  datatype Outcome =
    | Returned(response: SDKResponse)
    | TransientError(message: string)
    | RuntimeError(message: string)
    | OtherError(message: string)
  {
    predicate Succeeded() { Returned? && response.success }
  }

  /** The outcomes of successive invocations of an operation. */
  type Script = nat -> Outcome

  /** What running an operation does: its outcome, the invocations made and the seconds slept. */
  datatype Execution = Execution(outcome: Outcome, calls: nat, slept: real)

  /** The callables an adapter runs under a key: the operation itself, or a retry block around it. */
  datatype Block = Direct | Retrying(maxRetries: Option<int>)

  // ---- Retry -------------------------------------------------------------------------------

  function Pow2(n: nat): nat
  {
    if n == 0 then 1 else 2 * Pow2(n - 1)
  }

  /** Seconds slept after the attempts 0 to n - 1. */
  function Slept(n: nat): real
  {
    if n == 0 then 0.0 else Slept(n - 1) + Pow2(n - 1) as real / 10.0
  }

  lemma {:induction false} SleptClosedForm(n: nat)
    ensures Slept(n) == (Pow2(n) - 1) as real / 10.0
  {
    if n > 0 { SleptClosedForm(n - 1); }
  }

  /** Consecutive transient failures from invocation `start` on, counting at most `limit`. */
  function Transients(script: Script, start: nat, limit: nat): (k: nat)
    ensures k <= limit
    ensures forall i :: start <= i < start + k ==> script(i).TransientError?
    ensures k < limit ==> !script(start + k).TransientError?
    decreases limit
  {
    if limit == 0 || !script(start).TransientError? then 0 else 1 + Transients(script, start + 1, limit - 1)
  }

  const EXHAUSTED := RuntimeError("Retry loop completed without result")

  function Retried(script: Script, start: nat, retries: int): Execution
  {
    if retries < 0 then Execution(EXHAUSTED, 0, 0.0)
    else
      var k := Transients(script, start, retries + 1);
      var last := if k == retries + 1 then retries else k;
      Execution(script(start + last), last + 1, (Pow2(last) - 1) as real / 10.0)
  }

  function Executed(script: Script, start: nat, block: Block, configured: int): Execution
  {
    match block
    case Direct => Execution(script(start), 1, 0.0)
    case Retrying(None) => Retried(script, start, configured)
    case Retrying(Some(retries)) => Retried(script, start, retries)
  }

  /** All invocations but the last failed transiently, the last one's outcome is
      reported, and it is a transient error only when every attempt was used. */
  ghost predicate StopsAtFirstAnswer(script: Script, start: nat, retries: nat, e: Execution)
  {
    && 1 <= e.calls <= retries + 1
    && (forall i :: start <= i < start + e.calls - 1 ==> script(i).TransientError?)
    && e.outcome == script(start + e.calls - 1)
    && (e.outcome.TransientError? ==> e.calls == retries + 1)
  }

  lemma FirstAnswer(script: Script, start: nat, retries: nat, k: nat)
    requires k <= retries && forall i :: start <= i < start + k ==> script(i).TransientError?
    requires !script(start + k).TransientError?
    ensures Retried(script, start, retries) == Execution(script(start + k), k + 1, Slept(k))
  {
    SleptClosedForm(k);
  }

  lemma AllTransient(script: Script, start: nat, retries: nat)
    requires forall i :: start <= i < start + retries + 1 ==> script(i).TransientError?
    ensures Retried(script, start, retries) == Execution(script(start + retries), retries + 1, Slept(retries))
  {
    SleptClosedForm(retries);
  }

  /** The retry block is the only execution that stops at the first answer and
      sleeps twice as long after each failed attempt but the last. */
  lemma RetriedIff(script: Script, start: nat, retries: nat, e: Execution)
    ensures e == Retried(script, start, retries)
       <==> StopsAtFirstAnswer(script, start, retries, e) && e.slept == Slept(e.calls - 1)
  {
    SleptClosedForm(Retried(script, start, retries).calls - 1);
    if StopsAtFirstAnswer(script, start, retries, e) && e.slept == Slept(e.calls - 1) {
      if e.outcome.TransientError? {
        AllTransient(script, start, retries);
      } else {
        FirstAnswer(script, start, retries, e.calls - 1);
      }
    }
  }

  /** What running an operation does. On its own it is invoked once, its outcome is reported
      and nothing is slept. In a retry block the number of retries is the given one, or else
      the configured one; without any attempt, with negative retries, that is an error. */
  lemma ExecutedIff(script: Script, start: nat, block: Block, configured: int, e: Execution)
    ensures e == Executed(script, start, block, configured) <==>
      match block
      case Direct => e == Execution(script(start), 1, 0.0)
      case Retrying(given) =>
        var retries := if given.Some? then given.value else configured;
        if retries < 0 then e == Execution(RuntimeError("Retry loop completed without result"), 0, 0.0)
        else StopsAtFirstAnswer(script, start, retries, e) && e.slept == Slept(e.calls - 1)
  {
    if block.Retrying? {
      var retries := if block.maxRetries.Some? then block.maxRetries.value else configured;
      if retries >= 0 { RetriedIff(script, start, retries, e); }
    }
  }

  /** How many of `n` invocations from `start` on succeed. */
  function SuccessesIn(script: Script, start: nat, n: nat): nat
  {
    if n == 0 then 0 else SuccessesIn(script, start, n - 1) + if script(start + n - 1).Succeeded() then 1 else 0
  }

  lemma {:induction false} TransientsDoNotSucceed(script: Script, start: nat, n: nat)
    requires forall i :: start <= i < start + n ==> script(i).TransientError?
    ensures SuccessesIn(script, start, n) == 0
  {
    if n > 0 { TransientsDoNotSucceed(script, start, n - 1); }
  }

  /** However an operation is run, one of its invocations succeeds if that is what is
      reported, and none otherwise. */
  lemma OneSuccessPerExecution(script: Script, start: nat, block: Block, configured: int)
    ensures var e := Executed(script, start, block, configured);
      SuccessesIn(script, start, e.calls) == if e.outcome.Succeeded() then 1 else 0
  {
    var e := Executed(script, start, block, configured);
    ExecutedIff(script, start, block, configured, e);
    if e.calls > 0 {
      TransientsDoNotSucceed(script, start, e.calls - 1);
    }
  }

  class Operation {
    const script: Script
    var calls: nat

    constructor (script: Script)
      ensures this.script == script && calls == 0
    {
      this.script, calls := script, 0;
    }

    method Invoke() returns (outcome: Outcome)
      modifies this
      ensures outcome == script(old(calls)) && calls == old(calls) + 1
    {
      outcome := script(calls);
      calls := calls + 1;
    }
  }

  // ---- The cache ---------------------------------------------------------------------------

  function ToDocument(r: SDKResponse): Document
  {
    Document(Some(r.success), Some(r.data), r.error, r.errorCode)
  }

  function FromDocument(d: Document): SDKResponse
  {
    SDKResponse(if d.success.Some? then d.success.value else false,
                if d.data.Some? then d.data.value else map[],
                d.error, d.errorCode)
  }

  /** An empty dictionary is falsy. */
  predicate Truthy(d: Document)
  {
    d != Document(None, None, None, None)
  }

  type Redis = map<string, Document>

  const PREFIX := "idempotency:"

  function Name(key: string): string
  {
    PREFIX + key
  }

  lemma NameIsInjective(a: string, b: string)
    ensures Name(a) == Name(b) <==> a == b
  {
    assert Name(a)[|PREFIX|..] == a && Name(b)[|PREFIX|..] == b;
  }

  function Checked(redis: Redis, key: string): Option<Document>
  {
    if Name(key) in redis then Some(redis[Name(key)]) else None
  }

  function Stored(redis: Redis, key: string, d: Document): Redis
  {
    redis[Name(key) := d]
  }

  function Deleted(redis: Redis, key: string): Redis
  {
    redis - {Name(key)}
  }

  /** Storing or deleting one key is seen by that key's check and by no other's. */
  lemma CheckAfterStoreAndDelete(redis: Redis, key: string, other: string, d: Document)
    ensures Checked(Stored(redis, key, d), other) == if other == key then Some(d) else Checked(redis, other)
    ensures Checked(Deleted(redis, key), other) == if other == key then None else Checked(redis, other)
    ensures Deleted(Stored(redis, key, d), key) == Deleted(redis, key)
    ensures Stored(redis, key, d).Keys == redis.Keys + {"idempotency:" + key}
  {
    NameIsInjective(key, other);
  }

  class IdempotencyService {
    var redis: Redis

    constructor (redis: Redis)
      ensures this.redis == redis
    {
      this.redis := redis;
    }

    method Check(key: string) returns (cached: Option<Document>)
      ensures cached == Checked(redis, key)
    {
      if PREFIX + key in redis {
        return Some(redis[PREFIX + key]);
      }
      return None;
    }

    method Store(key: string, response: Document)
      modifies this
      ensures redis == Stored(old(redis), key, response)
    {
      redis := redis[PREFIX + key := response];
    }

    method Delete(key: string)
      modifies this
      ensures redis == Deleted(old(redis), key)
    {
      redis := map k | k in redis && k != PREFIX + key :: redis[k];
    }
  }

  // ---- Calls under a key ---------------------------------------------------------------------

  /** The reply to a call, whether the operation ran, and the cache afterwards. */
  datatype Answer = Answer(outcome: Outcome, ran: bool, redis: Redis)

  predicate Hit(redis: Redis, key: string)
  {
    var cached := Checked(redis, key);
    cached.Some? && Truthy(cached.value)
  }

  predicate Usable(key: Option<string>)
  {
    key.Some? && key.value != ""
  }

  /** The reply when running the operation would do `e`. */
  function Answered(redis: Redis, key: Option<string>, e: Execution): Answer
  {
    if !Usable(key) then Answer(e.outcome, true, redis)
    else if Hit(redis, key.value) then Answer(Returned(FromDocument(Checked(redis, key.value).value)), false, redis)
    else if e.outcome.Succeeded() then Answer(e.outcome, true, Stored(redis, key.value, ToDocument(e.outcome.response)))
    else Answer(e.outcome, true, redis)
  }

  /** Without a key, or with an empty one, the operation runs and the cache is left alone. */
  lemma NoKeyNoCache(redis: Redis, key: Option<string>, e: Execution)
    requires key == None || key == Some("")
    ensures Answered(redis, key, e) == Answer(e.outcome, true, redis)
  {
  }

  /** A cached dictionary stands for the response with these fields: a missing success is
      a failure, missing data are none. An empty dictionary is no answer. */
  lemma CachedAnswer(redis: Redis, key: string, d: Document, e: Execution)
    requires key != "" && Checked(redis, key) == Some(d)
    ensures Answered(redis, Some(key), e).ran <==> d == Document(None, None, None, None)
    ensures d != Document(None, None, None, None) ==>
      Answered(redis, Some(key), e).outcome == Returned(SDKResponse(d.success == Some(true),
        if d.data.Some? then d.data.value else map[], d.error, d.errorCode))
  {
  }

  class BaseSDKAdapter {
    const maxRetries: int
    const idempotency: IdempotencyService?
    var slept: real

    constructor (maxRetries: int, idempotency: IdempotencyService?)
      ensures this.maxRetries == maxRetries && this.idempotency == idempotency && slept == 0.0
    {
      this.maxRetries, this.idempotency, slept := maxRetries, idempotency, 0.0;
    }

    method WithRetry(operation: Operation, maxRetries: Option<int>) returns (outcome: Outcome)
      modifies this`slept, operation
      ensures var e := Executed(operation.script, old(operation.calls), Retrying(maxRetries), this.maxRetries);
              outcome == e.outcome && operation.calls == old(operation.calls) + e.calls && slept == old(slept) + e.slept
    {
      var retries := if maxRetries.Some? then maxRetries.value else this.maxRetries;
      var lastError: Option<Outcome> := None;
      var attempt := 0;
      while attempt < retries + 1
        invariant retries < 0 ==> attempt == 0
        invariant 0 <= retries ==> attempt <= retries + 1
        invariant operation.calls == old(operation.calls) + attempt
        invariant forall i :: old(operation.calls) <= i < operation.calls ==> operation.script(i).TransientError?
        invariant lastError == if attempt == 0 then None else Some(operation.script(operation.calls - 1))
        invariant slept == old(slept) + Slept(if attempt <= retries || attempt == 0 then attempt else attempt - 1)
      {
        outcome := operation.Invoke();
        if !outcome.TransientError? {
          FirstAnswer(operation.script, old(operation.calls), retries, attempt);
          return;
        }
        lastError := Some(outcome);
        if attempt < retries {
          slept := slept + Pow2(attempt) as real / 10.0;
        }
        attempt := attempt + 1;
      }
      if lastError.Some? {
        outcome := lastError.value;
        AllTransient(operation.script, old(operation.calls), retries);
        return;
      }
      outcome := RuntimeError("Retry loop completed without result");
    }

    method Execute(operation: Operation, block: Block) returns (outcome: Outcome)
      modifies this`slept, operation
      ensures var e := Executed(operation.script, old(operation.calls), block, maxRetries);
              outcome == e.outcome && operation.calls == old(operation.calls) + e.calls && slept == old(slept) + e.slept
    {
      match block {
        case Direct => outcome := operation.Invoke();
        case Retrying(maxRetries) => outcome := WithRetry(operation, maxRetries);
      }
    }

    method WithIdempotency(key: Option<string>, operation: Operation, block: Block) returns (outcome: Outcome)
      modifies this`slept, operation, idempotency
      ensures var e := Executed(operation.script, old(operation.calls), block, maxRetries);
              if idempotency == null then
                outcome == e.outcome && operation.calls == old(operation.calls) + e.calls && slept == old(slept) + e.slept
              else
                var answer := Answered(old(idempotency.redis), key, e);
                && outcome == answer.outcome && idempotency.redis == answer.redis
                && operation.calls == old(operation.calls) + (if answer.ran then e.calls else 0)
                && slept == old(slept) + (if answer.ran then e.slept else 0.0)
    {
      if key.None? || key.value == "" || idempotency == null {
        outcome := Execute(operation, block);
        return;
      }
      var cached := idempotency.Check(key.value);
      if cached.Some? && Truthy(cached.value) {
        return Returned(FromDocument(cached.value));
      }
      outcome := Execute(operation, block);
      if outcome.Returned? && outcome.response.success {
        idempotency.Store(key.value, ToDocument(outcome.response));
      }
    }
  }

  // ---- Sequences of calls ---------------------------------------------------------------------

  /** A call with what running its operation would do, an entry lost by deletion or
      expiry, or a dictionary stored through the service by someone else. */
  datatype Step =
    | Call(key: Option<string>, execution: Execution)
    | Evict(entry: string)
    | Put(entry: string, document: Document)

  function After(redis: Redis, steps: seq<Step>): Redis
  {
    if steps == [] then redis
    else
      var before := After(redis, steps[..|steps| - 1]);
      match steps[|steps| - 1]
      case Call(key, e) => Answered(before, key, e).redis
      case Evict(entry) => Deleted(before, entry)
      case Put(entry, d) => Stored(before, entry, d)
  }

  predicate CallsUnder(s: Step, key: string)
  {
    s.Call? && s.key == Some(key)
  }

  predicate Disturbs(s: Step, key: string)
  {
    !s.Call? && s.entry == key
  }

  /** The answer to the call at position `i`. */
  function AnswerAt(redis: Redis, steps: seq<Step>, i: nat): Answer
    requires i < |steps| && steps[i].Call?
  {
    Answered(After(redis, steps[..i]), steps[i].key, steps[i].execution)
  }

  lemma AfterNext(redis: Redis, steps: seq<Step>, i: nat)
    requires i < |steps|
    ensures steps[i].Call? ==> After(redis, steps[..i + 1]) == AnswerAt(redis, steps, i).redis
    ensures steps[i].Evict? ==> After(redis, steps[..i + 1]) == Deleted(After(redis, steps[..i]), steps[i].entry)
    ensures steps[i].Put? ==> After(redis, steps[..i + 1]) == Stored(After(redis, steps[..i]), steps[i].entry, steps[i].document)
  {
    assert steps[..i + 1][..i] == steps[..i];
  }

  /** What one step does to the entry under a key. */
  lemma StepOnKey(redis: Redis, steps: seq<Step>, i: nat, key: string)
    requires i < |steps| && key != ""
    ensures var before, after := Checked(After(redis, steps[..i]), key), Checked(After(redis, steps[..i + 1]), key);
            && (!Disturbs(steps[i], key) && Hit(After(redis, steps[..i]), key) ==> after == before)
            && (!Disturbs(steps[i], key) && !CallsUnder(steps[i], key) ==> after == before)
            && (steps[i] == Evict(key) ==> after == None)
            && (CallsUnder(steps[i], key) && AnswerAt(redis, steps, i).outcome.Succeeded() ==>
                  after.Some? && Truthy(after.value) && FromDocument(after.value) == AnswerAt(redis, steps, i).outcome.response)
            && (CallsUnder(steps[i], key) && !AnswerAt(redis, steps, i).outcome.Succeeded() ==> after == before)
  {
    AfterNext(redis, steps, i);
    var before := After(redis, steps[..i]);
    match steps[i]
    case Call(k, e) =>
      if Usable(k) && e.outcome.Succeeded() {
        CheckAfterStoreAndDelete(before, k.value, key, ToDocument(e.outcome.response));
      }
    case Evict(entry) => CheckAfterStoreAndDelete(before, entry, key, Document(None, None, None, None));
    case Put(entry, d) => CheckAfterStoreAndDelete(before, entry, key, d);
  }

  /** An entry stays as it is until a step disturbs it. */
  lemma {:induction false} EntryStays(redis: Redis, steps: seq<Step>, i: nat, j: nat, key: string)
    requires i <= j <= |steps| && key != ""
    requires Hit(After(redis, steps[..i]), key)
    requires forall n :: i <= n < j ==> !Disturbs(steps[n], key)
    ensures Checked(After(redis, steps[..j]), key) == Checked(After(redis, steps[..i]), key)
  {
    if i < j {
      EntryStays(redis, steps, i, j - 1, key);
      StepOnKey(redis, steps, j - 1, key);
    }
  }

  /** Once a call under a key has answered with success, every later call under it
      gives that very response without running its operation, as long as the entry
      is neither evicted nor overwritten. */
  lemma LaterCallsReplay(redis: Redis, steps: seq<Step>, i: nat, j: nat, key: string)
    requires i < j < |steps| && key != ""
    requires CallsUnder(steps[i], key) && CallsUnder(steps[j], key)
    requires AnswerAt(redis, steps, i).outcome.Succeeded()
    requires forall n :: i < n < j ==> !Disturbs(steps[n], key)
    ensures AnswerAt(redis, steps, j).outcome == AnswerAt(redis, steps, i).outcome
    ensures !AnswerAt(redis, steps, j).ran
  {
    StepOnKey(redis, steps, i, key);
    EntryStays(redis, steps, i + 1, j, key);
  }

  function SuccessfulRuns(redis: Redis, steps: seq<Step>, key: string): nat
  {
    if steps == [] then 0
    else
      var n := |steps| - 1;
      var ranHere := CallsUnder(steps[n], key) && AnswerAt(redis, steps, n).ran && AnswerAt(redis, steps, n).outcome.Succeeded();
      SuccessfulRuns(redis, steps[..n], key) + if ranHere then 1 else 0
  }

  function Disturbances(steps: seq<Step>, key: string): nat
  {
    if steps == [] then 0
    else Disturbances(steps[..|steps| - 1], key) + if Disturbs(steps[|steps| - 1], key) then 1 else 0
  }

  /** Under one key the operation succeeds at most once more than the entry is evicted
      or overwritten, and no more often than that while no answer is cached. */
  lemma {:induction false} SuccessesAreBounded(redis: Redis, steps: seq<Step>, key: string)
    requires key != ""
    ensures SuccessfulRuns(redis, steps, key) <= Disturbances(steps, key) + if Hit(After(redis, steps), key) then 1 else 0
  {
    if steps != [] {
      var n := |steps| - 1;
      SuccessesAreBounded(redis, steps[..n], key);
      StepOnKey(redis, steps, n, key);
      assert steps[..n + 1] == steps;
    }
  }

  lemma {:induction false} NoDisturbances(steps: seq<Step>, key: string)
    requires forall n :: 0 <= n < |steps| ==> !Disturbs(steps[n], key)
    ensures Disturbances(steps, key) == 0
  {
    if steps != [] { NoDisturbances(steps[..|steps| - 1], key); }
  }

  /** While the entry stays stored, the operation runs successfully at most once. */
  lemma SucceedsAtMostOnce(redis: Redis, steps: seq<Step>, key: string)
    requires key != ""
    requires forall n :: 0 <= n < |steps| ==> !Disturbs(steps[n], key)
    ensures SuccessfulRuns(redis, steps, key) <= 1
  {
    SuccessesAreBounded(redis, steps, key);
    NoDisturbances(steps, key);
  }

  /** The call at `i` is under the key and answered with success. */
  predicate SucceedsAt(redis: Redis, steps: seq<Step>, i: nat, key: string)
    requires i < |steps|
  {
    CallsUnder(steps[i], key) && AnswerAt(redis, steps, i).outcome.Succeeded()
  }

  ghost predicate Undisturbed(steps: seq<Step>, i: nat, n: nat, key: string)
    requires n <= |steps|
  {
    forall m :: i < m < n ==> !Disturbs(steps[m], key)
  }

  /** Some call before position `n` answered with success and nothing evicted its entry since. */
  ghost predicate SucceededBefore(redis: Redis, steps: seq<Step>, n: nat, key: string)
    requires n <= |steps|
  {
    exists i :: 0 <= i < n && SucceedsAt(redis, steps, i, key) && Undisturbed(steps, i, n, key)
  }

  lemma SuccessIsCached(redis: Redis, steps: seq<Step>, n: nat, key: string)
    requires n <= |steps| && key != "" && SucceededBefore(redis, steps, n, key)
    ensures Hit(After(redis, steps[..n]), key)
  {
    var i :| 0 <= i < n && SucceedsAt(redis, steps, i, key) && Undisturbed(steps, i, n, key);
    StepOnKey(redis, steps, i, key);
    EntryStays(redis, steps, i + 1, n, key);
  }

  lemma StillCached(redis: Redis, steps: seq<Step>, p: nat, key: string)
    requires p < |steps| && key != "" && Hit(After(redis, steps[..p + 1]), key)
    requires !SucceedsAt(redis, steps, p, key) && (steps[p].Put? ==> steps[p].entry != key)
    ensures !Disturbs(steps[p], key) && Hit(After(redis, steps[..p]), key)
  {
    StepOnKey(redis, steps, p, key);
  }

  lemma StillSucceeded(redis: Redis, steps: seq<Step>, p: nat, key: string)
    requires p < |steps| && SucceededBefore(redis, steps, p, key) && !Disturbs(steps[p], key)
    ensures SucceededBefore(redis, steps, p + 1, key)
  {
    var i :| 0 <= i < p && SucceedsAt(redis, steps, i, key) && Undisturbed(steps, i, p, key);
    assert Undisturbed(steps, i, p + 1, key);
  }

  lemma {:induction false} CachedIsSuccess(redis: Redis, steps: seq<Step>, n: nat, key: string)
    requires n <= |steps| && key != "" && Checked(redis, key) == None
    requires forall m :: 0 <= m < n && steps[m].Put? ==> steps[m].entry != key
    requires Hit(After(redis, steps[..n]), key)
    ensures SucceededBefore(redis, steps, n, key)
  {
    if n > 0 {
      if SucceedsAt(redis, steps, n - 1, key) {
        assert Undisturbed(steps, n - 1, n, key);
      } else {
        StillCached(redis, steps, n - 1, key);
        CachedIsSuccess(redis, steps, n - 1, key);
        StillSucceeded(redis, steps, n - 1, key);
      }
    }
  }

  /** Where nobody else stores under the key, a call under it runs its operation
      exactly when no earlier call's success is still cached: failures are never
      cached, successes always are. */
  lemma RunsIffNoSuccess(redis: Redis, steps: seq<Step>, n: nat, key: string)
    requires n < |steps| && key != "" && Checked(redis, key) == None && CallsUnder(steps[n], key)
    requires forall m :: 0 <= m < n && steps[m].Put? ==> steps[m].entry != key
    ensures AnswerAt(redis, steps, n).ran <==> !SucceededBefore(redis, steps, n, key)
  {
    if Hit(After(redis, steps[..n]), key) {
      CachedIsSuccess(redis, steps, n, key);
    } else if SucceededBefore(redis, steps, n, key) {
      SuccessIsCached(redis, steps, n, key);
    }
  }

  // ---- Operations and their invocations -------------------------------------------------

  /** What callers do: ask for an operation to be run under a key, or disturb an entry. */
  datatype Act =
    | Ask(key: Option<string>, operation: nat, block: Block)
    | Lose(entry: string)
    | Overwrite(entry: string, document: Document)

  /** The outcomes every operation has in store, the configured retries and the first cache. */
  datatype Provider = Provider(scripts: nat -> Script, retries: int, redis: Redis)

  /** The steps that follow from the acts, and how often each operation has been invoked. */
  datatype Played = Played(steps: seq<Step>, calls: map<nat, nat>)

  function CallsOf(calls: map<nat, nat>, operation: nat): nat
  {
    if operation in calls then calls[operation] else 0
  }

  /** What running the operation now would do. */
  function Pending(p: Provider, calls: map<nat, nat>, operation: nat, block: Block): Execution
  {
    Executed(p.scripts(operation), CallsOf(calls, operation), block, p.retries)
  }

  /** Each call goes on where the invocations of its operation left off; a call that is
      answered from the cache invokes nothing. */
  function Play(p: Provider, acts: seq<Act>): Played
  {
    if acts == [] then Played([], map[])
    else
      var before := Play(p, acts[..|acts| - 1]);
      match acts[|acts| - 1]
      case Lose(entry) => Played(before.steps + [Evict(entry)], before.calls)
      case Overwrite(entry, d) => Played(before.steps + [Put(entry, d)], before.calls)
      case Ask(key, operation, block) =>
        var e := Pending(p, before.calls, operation, block);
        Played(before.steps + [Call(key, e)],
               if Answered(After(p.redis, before.steps), key, e).ran
               then before.calls[operation := CallsOf(before.calls, operation) + e.calls] else before.calls)
  }

  /** The invocations under a key, of whichever operations, that succeeded. */
  function SuccessfulInvocations(p: Provider, acts: seq<Act>, key: string): nat
  {
    if acts == [] then 0
    else
      var front, act := acts[..|acts| - 1], acts[|acts| - 1];
      var before := Play(p, front);
      SuccessfulInvocations(p, front, key)
        + if act.Ask? && act.key == Some(key) then SuccessesBetween(p, before.calls, Play(p, acts).calls, act.operation) else 0
  }

  /** The invocations of an operation between two counts that succeeded. */
  function SuccessesBetween(p: Provider, calls: map<nat, nat>, calls': map<nat, nat>, operation: nat): nat
  {
    var n := CallsOf(calls', operation) - CallsOf(calls, operation);
    if n < 0 then 0 else SuccessesIn(p.scripts(operation), CallsOf(calls, operation), n)
  }

  lemma BetweenIs(p: Provider, calls: map<nat, nat>, calls': map<nat, nat>, operation: nat, n: nat)
    requires CallsOf(calls', operation) == CallsOf(calls, operation) + n
    ensures SuccessesBetween(p, calls, calls', operation) == SuccessesIn(p.scripts(operation), CallsOf(calls, operation), n)
  {
  }

  ghost predicate Upsets(act: Act, key: string)
  {
    !act.Ask? && act.entry == key
  }

  function Upsettings(acts: seq<Act>, key: string): nat
  {
    if acts == [] then 0
    else Upsettings(acts[..|acts| - 1], key) + if !acts[|acts| - 1].Ask? && acts[|acts| - 1].entry == key then 1 else 0
  }

  lemma OneMoreStep(redis: Redis, steps: seq<Step>, s: Step, key: string)
    ensures Disturbances(steps + [s], key) == Disturbances(steps, key) + if Disturbs(s, key) then 1 else 0
    ensures SuccessfulRuns(redis, steps + [s], key) == SuccessfulRuns(redis, steps, key)
      + if CallsUnder(s, key) && Answered(After(redis, steps), s.key, s.execution).ran
           && Answered(After(redis, steps), s.key, s.execution).outcome.Succeeded() then 1 else 0
  {
    var all := steps + [s];
    assert all[..|all| - 1] == steps && all[|all| - 1] == s;
  }

  /** What one call invokes. */
  lemma AskInvokes(p: Provider, before: Played, key: string, operation: nat, block: Block)
    requires key != ""
    ensures var e := Pending(p, before.calls, operation, block);
      var answer := Answered(After(p.redis, before.steps), Some(key), e);
      SuccessesIn(p.scripts(operation), CallsOf(before.calls, operation), if answer.ran then e.calls else 0)
        == if answer.ran && answer.outcome.Succeeded() then 1 else 0
  {
    OneSuccessPerExecution(p.scripts(operation), CallsOf(before.calls, operation), block, p.retries);
  }

  /** The acts, invocation by invocation, are the steps the cache sees. */
  lemma {:induction false} InvocationsAreRuns(p: Provider, acts: seq<Act>, key: string)
    requires key != ""
    ensures SuccessfulInvocations(p, acts, key) == SuccessfulRuns(p.redis, Play(p, acts).steps, key)
    ensures Upsettings(acts, key) == Disturbances(Play(p, acts).steps, key)
  {
    if acts != [] {
      var front, act := acts[..|acts| - 1], acts[|acts| - 1];
      var before := Play(p, front);
      InvocationsAreRuns(p, front, key);
      match act
      case Lose(entry) => OneMoreStep(p.redis, before.steps, Evict(entry), key);
      case Overwrite(entry, d) => OneMoreStep(p.redis, before.steps, Put(entry, d), key);
      case Ask(k, operation, block) => AskIsRun(p, acts, key);
    }
  }

  /** Whether a call to come runs its operation with success. */
  predicate Lands(p: Provider, before: Played, key: Option<string>, operation: nat, block: Block)
  {
    var answer := Answered(After(p.redis, before.steps), key, Pending(p, before.calls, operation, block));
    answer.ran && answer.outcome.Succeeded()
  }

  lemma AskPlays(p: Provider, acts: seq<Act>)
    requires acts != [] && acts[|acts| - 1].Ask?
    ensures var act, before := acts[|acts| - 1], Play(p, acts[..|acts| - 1]);
      var e := Pending(p, before.calls, act.operation, act.block);
      && Play(p, acts).steps == before.steps + [Call(act.key, e)]
      && CallsOf(Play(p, acts).calls, act.operation)
           == CallsOf(before.calls, act.operation) + if Answered(After(p.redis, before.steps), act.key, e).ran then e.calls else 0
  {
  }

  lemma AskLands(p: Provider, acts: seq<Act>, key: string)
    requires key != "" && acts != [] && acts[|acts| - 1].Ask?
    ensures var front, act := acts[..|acts| - 1], acts[|acts| - 1];
      SuccessfulInvocations(p, acts, key) == SuccessfulInvocations(p, front, key)
        + if act.key == Some(key) && Lands(p, Play(p, front), act.key, act.operation, act.block) then 1 else 0
  {
    var act := acts[|acts| - 1];
    var before := Play(p, acts[..|acts| - 1]);
    AskPlays(p, acts);
    if act.key == Some(key) {
      AskInvokes(p, before, key, act.operation, act.block);
      var e := Pending(p, before.calls, act.operation, act.block);
      BetweenIs(p, before.calls, Play(p, acts).calls, act.operation,
                if Answered(After(p.redis, before.steps), act.key, e).ran then e.calls else 0);
    }
  }

  lemma AskIsRun(p: Provider, acts: seq<Act>, key: string)
    requires key != "" && acts != [] && acts[|acts| - 1].Ask?
    ensures var front := acts[..|acts| - 1];
      && SuccessfulInvocations(p, acts, key) - SuccessfulInvocations(p, front, key)
           == SuccessfulRuns(p.redis, Play(p, acts).steps, key) - SuccessfulRuns(p.redis, Play(p, front).steps, key)
      && Disturbances(Play(p, acts).steps, key) == Disturbances(Play(p, front).steps, key)
  {
    var act, before := acts[|acts| - 1], Play(p, acts[..|acts| - 1]);
    AskPlays(p, acts);
    AskLands(p, acts, key);
    OneMoreStep(p.redis, before.steps, Call(act.key, Pending(p, before.calls, act.operation, act.block)), key);
  }

  /** At most one success per key, counted where it matters: however calls under a key mix
      operations, retries and results, the invocations that succeed exceed by at most one
      the times its entry is lost or overwritten. */
  lemma InvocationsSucceedOnce(p: Provider, acts: seq<Act>, key: string)
    requires key != ""
    ensures SuccessfulInvocations(p, acts, key) <= Upsettings(acts, key) + 1
  {
    InvocationsAreRuns(p, acts, key);
    SuccessesAreBounded(p.redis, Play(p, acts).steps, key);
  }

  /** While the entry stays stored, at most one invocation under the key succeeds. */
  lemma OneInvocationSucceeds(p: Provider, acts: seq<Act>, key: string)
    requires key != "" && forall n :: 0 <= n < |acts| ==> !Upsets(acts[n], key)
    ensures SuccessfulInvocations(p, acts, key) <= 1
  {
    InvocationsSucceedOnce(p, acts, key);
    NothingUpset(acts, key);
  }

  lemma {:induction false} NothingUpset(acts: seq<Act>, key: string)
    requires forall n :: 0 <= n < |acts| ==> !Upsets(acts[n], key)
    ensures Upsettings(acts, key) == 0
  {
    if acts != [] {
      assert !Upsets(acts[|acts| - 1], key);
      NothingUpset(acts[..|acts| - 1], key);
    }
  }
}
