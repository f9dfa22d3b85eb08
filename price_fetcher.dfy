/**
 * Price acquisition (xrpbot.py, `_fetch_one_id` and `get_price_data`).
 *
 * Every candidate source identifier is tried in list order, each with up to
 * four attempts preceded by the waits 0, 1.5, 3.0 and 5.0 seconds. An
 * attempt whose error belongs to the retried classes is recorded as the last
 * error and the next attempt follows; the first quote returns at once; an
 * error of any other class leaves the whole acquisition at once. The network
 * exchange of each attempt is an oracle indexed by (source index, attempt
 * index); the waits are recorded rather than performed.
 */
module PriceFetcher {
  import opened Wrappers

  // ---------------------------------------------------------------------------
  // One attempt: the exchange with the price API and how it is classified
  // ---------------------------------------------------------------------------

  /** The Python exception classes an attempt can end with. */
  datatype ErrorClass =
    | ClientError   // aiohttp.ClientError: connection, content-type or body-read failure
    | TimeoutError  // asyncio.TimeoutError: the 10 s request budget ran out
    | RuntimeError  // raised by the fetch itself for a bad status or payload
    | KeyError      // a field missing from the first record
    | ValueError    // a text field float() cannot read, or a body that is not JSON
    | TypeError     // a first record or a field of the wrong JSON type

  /** What went wrong, for the log lines and the final error message. */
  datatype Cause =
    | Transport
    | HttpStatus(code: int)
    | EmptyOrInvalidPayload
    | BadBody
    | NotARecord
    | MissingField(name: string)
    | BadField(name: string)

  datatype FetchError = FetchError(cls: ErrorClass, cause: Cause)

  /**
   * A decoded JSON value. A string carries the value Python's float() reads
   * from it, or None when float() raises ValueError on it.
   */
  datatype Json =
    | JNull
    | JBool(b: bool)
    | JNumber(x: real)
    | JString(text: string, asFloat: Option<real>)
    | JArray(items: seq<Json>)
    | JObject(fields: map<string, Json>)

  /** The body as `resp.json()` delivers it, or the class of what it raised. */
  datatype Body = Decoded(data: Json) | Undecodable(cls: ErrorClass)

  /** One request to the price API, as the HTTP client library saw it. */
  datatype Exchange =
    | Unanswered(cls: ErrorClass)           // raised before a status was read
    | Answered(status: int, body: Body)

  /** What one call of the fetch returns or raises. */
  datatype Attempt = Quote(price: real, change: real) | Raised(err: FetchError)

  /** How `get_price_data` treats one attempt. */
  datatype Outcome =
    | Ok(price: real, change: real)
    | Recoverable(err: FetchError)
    | Escaping(err: FetchError)

  const PriceField: string := "current_price"
  const ChangeField: string := "price_change_percentage_24h"

  /** A field read as a number, or the error reading it raised. */
  datatype Reading = Read(x: real) | Unread(err: FetchError)

  /** `float(v)` for a JSON value. */
  function ToFloat(v: Json, name: string): Reading {
    match v
    case JNumber(x) => Read(x)
    case JBool(b) => Read(if b then 1.0 else 0.0)
    case JString(_, asFloat) =>
      if asFloat.Some? then Read(asFloat.value) else Unread(FetchError(ValueError, BadField(name)))
    case _ => Unread(FetchError(TypeError, BadField(name)))
  }

  /** `float(row[name])`. */
  function FieldOf(row: Json, name: string): Reading {
    if !row.JObject? then Unread(FetchError(TypeError, NotARecord))
    else if name !in row.fields then Unread(FetchError(KeyError, MissingField(name)))
    else ToFloat(row.fields[name], name)
  }

  /** A JSON list with at least one element. */
  predicate NonEmptyList(data: Json) {
    data.JArray? && data.items != []
  }

  /** `_fetch_one_id`: the quote the exchange yields, or what it raises. */
  function FetchOne(ex: Exchange): Attempt {
    match ex
    case Unanswered(cls) => Raised(FetchError(cls, Transport))
    case Answered(status, body) =>
      if status != 200 then Raised(FetchError(RuntimeError, HttpStatus(status)))
      else if body.Undecodable? then Raised(FetchError(body.cls, BadBody))
      else if !NonEmptyList(body.data) then Raised(FetchError(RuntimeError, EmptyOrInvalidPayload))
      else
        var row := body.data.items[0];
        match FieldOf(row, PriceField)
        case Unread(e) => Raised(e)
        case Read(price) =>
          match FieldOf(row, ChangeField)
          case Unread(e) => Raised(e)
          case Read(change) => Quote(price, change)
  }

  /** The classes `get_price_data` catches and retries. */
  predicate Retried(cls: ErrorClass) {
    cls == ClientError || cls == TimeoutError || cls == RuntimeError
  }

  /** The outcome of one attempt, as the catch tuple of `get_price_data` sorts it. */
  function AttemptOutcome(ex: Exchange): Outcome {
    match FetchOne(ex)
    case Quote(price, change) => Ok(price, change)
    case Raised(e) => if Retried(e.cls) then Recoverable(e) else Escaping(e)
  }

  /** A 200 answer whose body decoded to a non-empty JSON list. */
  predicate Listed(ex: Exchange) {
    ex.Answered? && ex.status == 200 && ex.body.Decoded? && NonEmptyList(ex.body.data)
  }

  /** The first record of a listed answer. */
  function FirstRow(ex: Exchange): Json
    requires Listed(ex)
  {
    ex.body.data.items[0]
  }

  /**
   * How attempts are classified. A bad status and an empty or non-list
   * payload are recoverable; a transport or body error is recoverable exactly
   * when its class is retried; a missing or unreadable price field escapes,
   * and so does a missing or unreadable change field next to a readable
   * price; a quote comes exactly from a listed answer whose first record
   * holds both fields, and carries their values.
   */
  lemma Classification(ex: Exchange)
    ensures var o := AttemptOutcome(ex);
      (o.Recoverable? <==> FetchOne(ex).Raised? && Retried(FetchOne(ex).err.cls)) &&
      (o.Escaping? <==> FetchOne(ex).Raised? && !Retried(FetchOne(ex).err.cls))
    ensures ex.Unanswered? ==>
      (AttemptOutcome(ex).Recoverable? <==> Retried(ex.cls)) && FetchOne(ex).err.cls == ex.cls
    ensures ex.Answered? && ex.status != 200 ==>
      AttemptOutcome(ex) == Recoverable(FetchError(RuntimeError, HttpStatus(ex.status)))
    ensures ex.Answered? && ex.status == 200 && ex.body.Undecodable? ==>
      (AttemptOutcome(ex).Recoverable? <==> Retried(ex.body.cls)) && FetchOne(ex).err.cls == ex.body.cls
    ensures ex.Answered? && ex.status == 200 && ex.body.Decoded? && !NonEmptyList(ex.body.data) ==>
      AttemptOutcome(ex) == Recoverable(FetchError(RuntimeError, EmptyOrInvalidPayload))
    ensures Listed(ex) && FieldOf(FirstRow(ex), PriceField).Unread? ==>
      AttemptOutcome(ex) == Escaping(FieldOf(FirstRow(ex), PriceField).err)
    ensures Listed(ex) && FieldOf(FirstRow(ex), PriceField).Read? &&
            FieldOf(FirstRow(ex), ChangeField).Unread? ==>
      AttemptOutcome(ex) == Escaping(FieldOf(FirstRow(ex), ChangeField).err)
    ensures Listed(ex) && FieldOf(FirstRow(ex), PriceField).Read? &&
            FieldOf(FirstRow(ex), ChangeField).Read? ==>
      AttemptOutcome(ex) == Ok(FieldOf(FirstRow(ex), PriceField).x, FieldOf(FirstRow(ex), ChangeField).x)
    ensures AttemptOutcome(ex).Ok? ==>
      Listed(ex) &&
      FieldOf(FirstRow(ex), PriceField) == Read(AttemptOutcome(ex).price) &&
      FieldOf(FirstRow(ex), ChangeField) == Read(AttemptOutcome(ex).change)
  {
  }

  /** A missing field is a KeyError and a non-numeric one a ValueError or TypeError: none is retried. */
  lemma FieldErrorsEscape(row: Json, name: string)
    requires FieldOf(row, name).Unread?
    ensures !Retried(FieldOf(row, name).err.cls)
  {
  }

  // ---------------------------------------------------------------------------
  // The acquisition: sources in order, four attempts each
  // ---------------------------------------------------------------------------

  /** The wait before each attempt of one source, in seconds. */
  const Backoffs: seq<real> := [0.0, 1.5, 3.0, 5.0]

  /** The sleep performed before attempt index `k` (none when the delay is 0). */
  function WaitBefore(k: nat): Option<real>
    requires k < |Backoffs|
  {
    if Backoffs[k] != 0.0 then Some(Backoffs[k]) else None
  }

  /**
   * One attempt as it happened: the source index, the attempt number
   * (counting from 1, as the warning log line does), the sleep before it and
   * its outcome. A recoverable outcome is the one that logs a warning.
   */
  datatype AttemptRecord = AttemptRecord(source: nat, attempt: nat, slept: Option<real>, outcome: Outcome)

  /** What the caller gets: a quote and the source it came from, or the error it raises. */
  datatype FetchResult =
    | Price(price: real, change: real, source: nat)
    | Exhausted(lastErr: Option<FetchError>)   // RuntimeError("Failed to fetch XRP price after retries: ...")
    | Escaped(err: FetchError)

  /** The result, every attempt in order, and whether the fallback line was logged. */
  datatype Acquisition = Acquisition(result: FetchResult, attempts: seq<AttemptRecord>, fallbackLogged: bool)

  /** The acquisition as seen after `done` attempts were already made. */
  function Resume(done: seq<AttemptRecord>, a: Acquisition): Acquisition {
    a.(attempts := done + a.attempts)
  }

  /** The outcome of every (source index, attempt index) pair, classified as `_fetch_one_id` does. */
  function Classified(oracle: (nat, nat) -> Exchange): (nat, nat) -> Outcome {
    (i: nat, k: nat) => AttemptOutcome(oracle(i, k))
  }

  /**
   * The acquisition from attempt index `k` of source `i` on, `last` being
   * the last recoverable error so far.
   */
  function RunFrom(ids: seq<string>, outcomes: (nat, nat) -> Outcome, i: nat, k: nat,
                   last: Option<FetchError>): Acquisition
    requires k <= |Backoffs|
    decreases |ids| - i, |Backoffs| - k
  {
    if i >= |ids| then Acquisition(Exhausted(last), [], false)
    else if k == |Backoffs| then RunFrom(ids, outcomes, i + 1, 0, last)
    else
      var outcome := outcomes(i, k);
      var rec := AttemptRecord(i, k + 1, WaitBefore(k), outcome);
      match outcome
      case Ok(price, change) => Acquisition(Price(price, change, i), [rec], ids[i] != ids[0])
      case Escaping(e) => Acquisition(Escaped(e), [rec], false)
      case Recoverable(e) => Resume([rec], RunFrom(ids, outcomes, i, k + 1, Some(e)))
  }

  /** `get_price_data` over the candidate list `ids`. */
  function Acquire(ids: seq<string>, outcomes: (nat, nat) -> Outcome): Acquisition {
    RunFrom(ids, outcomes, 0, 0, None)
  }

  /** `get_price_data`, loop for loop: each attempt's exchange classified as `_fetch_one_id` does. */
  method GetPriceData(ids: seq<string>, oracle: (nat, nat) -> Exchange) returns (acq: Acquisition)
    ensures acq == Acquire(ids, Classified(oracle))
  {
    var outcomes := Classified(oracle);
    var lastErr: Option<FetchError> := None;
    var done: seq<AttemptRecord> := [];
    for i := 0 to |ids|
      invariant Resume(done, RunFrom(ids, outcomes, i, 0, lastErr)) == Acquire(ids, outcomes)
    {
      for k := 0 to |Backoffs|
        invariant Resume(done, RunFrom(ids, outcomes, i, k, lastErr)) == Acquire(ids, outcomes)
      {
        var delay := Backoffs[k];
        var slept := None;
        if delay != 0.0 {
          slept := Some(delay);
        }
        var outcome := AttemptOutcome(oracle(i, k));
        assert outcome == outcomes(i, k);
        var rec := AttemptRecord(i, k + 1, slept, outcome);
        Advance(ids, outcomes, done, i, k, lastErr);
        if outcome.Ok? {
          return Acquisition(Price(outcome.price, outcome.change, i), done + [rec], ids[i] != ids[0]);
        } else if outcome.Escaping? {
          return Acquisition(Escaped(outcome.err), done + [rec], false);
        }
        lastErr := Some(outcome.err);
        done := done + [rec];
      }
      NextSource(ids, outcomes, done, i, lastErr);
    }
    assert done + [] == done;
    return Acquisition(Exhausted(lastErr), done, false);
  }

  /** One unfolding of `RunFrom` at an attempt that is made. */
  lemma RunFromStep(ids: seq<string>, outcomes: (nat, nat) -> Outcome, i: nat, k: nat, last: Option<FetchError>)
    requires i < |ids| && k < |Backoffs|
    ensures var outcome := outcomes(i, k);
            var rec := AttemptRecord(i, k + 1, WaitBefore(k), outcome);
            RunFrom(ids, outcomes, i, k, last) ==
              match outcome
              case Ok(price, change) => Acquisition(Price(price, change, i), [rec], ids[i] != ids[0])
              case Escaping(e) => Acquisition(Escaped(e), [rec], false)
              case Recoverable(e) => Resume([rec], RunFrom(ids, outcomes, i, k + 1, Some(e)))
  {
  }

  /** One attempt seen after the attempts `done`: it ends the acquisition or moves to the next slot. */
  lemma Advance(ids: seq<string>, outcomes: (nat, nat) -> Outcome, done: seq<AttemptRecord>,
                i: nat, k: nat, last: Option<FetchError>)
    requires i < |ids| && k < |Backoffs|
    ensures var o := outcomes(i, k);
            var rec := AttemptRecord(i, k + 1, WaitBefore(k), o);
            Resume(done, RunFrom(ids, outcomes, i, k, last)) ==
              if o.Recoverable? then Resume(done + [rec], RunFrom(ids, outcomes, i, k + 1, Some(o.err)))
              else Acquisition(if o.Ok? then Price(o.price, o.change, i) else Escaped(o.err),
                               done + [rec], o.Ok? && ids[i] != ids[0])
  {
    RunFromStep(ids, outcomes, i, k, last);
    var o := outcomes(i, k);
    if o.Recoverable? {
      var rest := RunFrom(ids, outcomes, i, k + 1, Some(o.err)).attempts;
      var rec := AttemptRecord(i, k + 1, WaitBefore(k), o);
      assert done + ([rec] + rest) == (done + [rec]) + rest;
    }
  }

  /** After a source's last attempt the next source starts. */
  lemma NextSource(ids: seq<string>, outcomes: (nat, nat) -> Outcome, done: seq<AttemptRecord>,
                   i: nat, last: Option<FetchError>)
    requires i < |ids|
    ensures Resume(done, RunFrom(ids, outcomes, i, |Backoffs|, last)) ==
            Resume(done, RunFrom(ids, outcomes, i + 1, 0, last))
  {
  }

  // ---------------------------------------------------------------------------
  // Properties of the acquisition
  // ---------------------------------------------------------------------------

  /** Position of an attempt in the source-major schedule: 4 slots per source. */
  function Slot(r: AttemptRecord): int {
    4 * r.source + r.attempt - 1
  }

  /** `rec` is the attempt made in slot `slot`, with the sleep its number calls for and that slot's outcome. */
  ghost predicate InSlot(ids: seq<string>, outcomes: (nat, nat) -> Outcome, rec: AttemptRecord, slot: int) {
    rec.source < |ids| && 1 <= rec.attempt <= |Backoffs| && Slot(rec) == slot &&
    rec.slept == WaitBefore(rec.attempt - 1) &&
    rec.outcome == outcomes(rec.source, rec.attempt - 1)
  }

  /** `recs` fill consecutive slots from `start`, and all but the last are recoverable. */
  ghost predicate Consecutive(ids: seq<string>, outcomes: (nat, nat) -> Outcome,
                              recs: seq<AttemptRecord>, start: int)
    decreases |recs|
  {
    recs != [] ==>
      InSlot(ids, outcomes, recs[0], start) &&
      (|recs| > 1 ==> recs[0].outcome.Recoverable?) &&
      Consecutive(ids, outcomes, recs[1..], start + 1)
  }

  /** The `t`-th of consecutive attempts is the one made in slot `start + t`. */
  lemma {:induction false} ConsecutiveAt(ids: seq<string>, outcomes: (nat, nat) -> Outcome,
                                         recs: seq<AttemptRecord>, start: int, t: nat)
    requires Consecutive(ids, outcomes, recs, start) && t < |recs|
    ensures InSlot(ids, outcomes, recs[t], start + t)
    ensures t + 1 < |recs| ==> recs[t].outcome.Recoverable?
    decreases t
  {
    if t > 0 {
      ConsecutiveAt(ids, outcomes, recs[1..], start + 1, t - 1);
      assert recs[1..][t - 1] == recs[t];
    }
  }

  lemma {:induction false} RunFromConsecutive(ids: seq<string>, outcomes: (nat, nat) -> Outcome,
                                              i: nat, k: nat, last: Option<FetchError>)
    requires k <= |Backoffs|
    ensures Consecutive(ids, outcomes, RunFrom(ids, outcomes, i, k, last).attempts, 4 * i + k)
    decreases |ids| - i, |Backoffs| - k
  {
    if i >= |ids| {
      assert RunFrom(ids, outcomes, i, k, last).attempts == [];
    } else if k == |Backoffs| {
      assert RunFrom(ids, outcomes, i, k, last) == RunFrom(ids, outcomes, i + 1, 0, last);
      RunFromConsecutive(ids, outcomes, i + 1, 0, last);
    } else {
      RunFromStep(ids, outcomes, i, k, last);
      var outcome := outcomes(i, k);
      var rec := AttemptRecord(i, k + 1, WaitBefore(k), outcome);
      assert InSlot(ids, outcomes, rec, 4 * i + k);
      if outcome.Recoverable? {
        RunFromConsecutive(ids, outcomes, i, k + 1, Some(outcome.err));
        var rest := RunFrom(ids, outcomes, i, k + 1, Some(outcome.err)).attempts;
        assert RunFrom(ids, outcomes, i, k, last).attempts == [rec] + rest;
        assert ([rec] + rest)[1..] == rest;
      } else {
        assert RunFrom(ids, outcomes, i, k, last).attempts == [rec];
        assert [rec][1..] == [];
      }
    }
  }

  /**
   * Attempts run source-major: the t-th attempt is attempt number t % 4 + 1
   * of source t / 4, reports the outcome for that pair, and is preceded by
   * the sleep Backoffs[t % 4], none for a source's first attempt. Every
   * attempt but the last was recoverable, and there are at most four
   * attempts per source.
   */
  lemma AttemptOrder(ids: seq<string>, outcomes: (nat, nat) -> Outcome)
    ensures var a := Acquire(ids, outcomes).attempts;
            |a| <= 4 * |ids| &&
            forall t :: 0 <= t < |a| ==>
              a[t].source == t / 4 && a[t].attempt == t % 4 + 1 &&
              a[t].slept == (if t % 4 == 0 then None else Some(Backoffs[t % 4])) &&
              a[t].outcome == outcomes(t / 4, t % 4) &&
              (t + 1 < |a| ==> a[t].outcome.Recoverable?)
  {
    var a := Acquire(ids, outcomes).attempts;
    RunFromConsecutive(ids, outcomes, 0, 0, None);
    forall t | 0 <= t < |a|
      ensures a[t].source == t / 4 && a[t].attempt == t % 4 + 1
      ensures a[t].slept == (if t % 4 == 0 then None else Some(Backoffs[t % 4]))
      ensures a[t].outcome == outcomes(t / 4, t % 4)
      ensures t + 1 < |a| ==> a[t].outcome.Recoverable?
    {
      ConsecutiveAt(ids, outcomes, a, 0, t);
      assert 4 * a[t].source + (a[t].attempt - 1) == t;
    }
    if |a| > 0 {
      ConsecutiveAt(ids, outcomes, a, 0, |a| - 1);
    }
  }

  /** One source's full run of four recoverable attempts, from attempt index `k` on. */
  lemma {:induction false} ExhaustFrom(ids: seq<string>, outcomes: (nat, nat) -> Outcome,
                                       i: nat, k: nat, last: Option<FetchError>)
    requires i < |ids| && k < |Backoffs|
    requires forall i': nat, k': nat :: i' < |ids| && k' < |Backoffs| && 4 * i + k <= 4 * i' + k' ==>
               outcomes(i', k').Recoverable?
    ensures var a := RunFrom(ids, outcomes, i, k, last);
            a.result == Exhausted(Some(outcomes(|ids| - 1, |Backoffs| - 1).err)) &&
            |a.attempts| == 4 * |ids| - (4 * i + k) &&
            SleptTotal(a.attempts) == BackoffsFrom(k) + 9.5 * ((|ids| - i - 1) as real) &&
            !a.fallbackLogged
    decreases |ids| - i, |Backoffs| - k
  {
    RunFromStep(ids, outcomes, i, k, last);
    assert outcomes(i, k).Recoverable?;
    var e := outcomes(i, k).err;
    var rec := AttemptRecord(i, k + 1, WaitBefore(k), outcomes(i, k));
    var rest := RunFrom(ids, outcomes, i, k + 1, Some(e));
    if k + 1 < |Backoffs| {
      ExhaustFrom(ids, outcomes, i, k + 1, Some(e));
    } else if i + 1 < |ids| {
      assert rest == RunFrom(ids, outcomes, i + 1, 0, Some(e));
      ExhaustFrom(ids, outcomes, i + 1, 0, Some(e));
      BackoffsTotal();
    } else {
      assert rest == Acquisition(Exhausted(Some(e)), [], false);
    }
    SleptCons(rec, rest.attempts);
  }

  /**
   * When every attempt is recoverable, exactly four attempts per source run,
   * the sleeps add up to 9.5 s per source, and the acquisition raises with
   * the last error (none at all for an empty candidate list).
   */
  lemma AllRecoverable(ids: seq<string>, outcomes: (nat, nat) -> Outcome)
    requires forall i: nat, k: nat :: i < |ids| && k < |Backoffs| ==> outcomes(i, k).Recoverable?
    ensures var a := Acquire(ids, outcomes);
            a.result == Exhausted(if ids == [] then None
                                  else Some(outcomes(|ids| - 1, |Backoffs| - 1).err)) &&
            |a.attempts| == 4 * |ids| &&
            SleptTotal(a.attempts) == 9.5 * (|ids| as real) &&
            !a.fallbackLogged
  {
    if ids != [] {
      ExhaustFrom(ids, outcomes, 0, 0, None);
      BackoffsTotal();
    }
  }

  /** The run from slot (i0, k0) up to the first attempt (i, k) that is not recoverable. */
  lemma {:induction false} StopFrom(ids: seq<string>, outcomes: (nat, nat) -> Outcome,
                                    i0: nat, k0: nat, last: Option<FetchError>, i: nat, k: nat)
    requires k0 <= |Backoffs| && i < |ids| && k < |Backoffs|
    requires 4 * i0 + k0 <= 4 * i + k
    requires forall i': nat, k': nat :: k' < |Backoffs| && 4 * i0 + k0 <= 4 * i' + k' < 4 * i + k ==>
               outcomes(i', k').Recoverable?
    requires !outcomes(i, k).Recoverable?
    ensures var a := RunFrom(ids, outcomes, i0, k0, last);
            var o := outcomes(i, k);
            a.result == (if o.Ok? then Price(o.price, o.change, i) else Escaped(o.err)) &&
            |a.attempts| == 4 * i + k - (4 * i0 + k0) + 1 &&
            a.fallbackLogged == (o.Ok? && ids[i] != ids[0])
    decreases |ids| - i0, |Backoffs| - k0
  {
    if k0 == |Backoffs| {
      StopFrom(ids, outcomes, i0 + 1, 0, last, i, k);
    } else {
      RunFromStep(ids, outcomes, i0, k0, last);
      if 4 * i0 + k0 < 4 * i + k {
        assert outcomes(i0, k0).Recoverable?;
        StopFrom(ids, outcomes, i0, k0 + 1, Some(outcomes(i0, k0).err), i, k);
      }
    }
  }

  /**
   * The first quote returns at once: no later attempt is made, the result is
   * that quote and its source, and the fallback line is logged exactly when
   * the source is not the primary identifier.
   */
  lemma FirstQuoteWins(ids: seq<string>, outcomes: (nat, nat) -> Outcome, i: nat, k: nat)
    requires i < |ids| && k < |Backoffs|
    requires forall i': nat, k': nat :: k' < |Backoffs| && 4 * i' + k' < 4 * i + k ==>
               outcomes(i', k').Recoverable?
    requires outcomes(i, k).Ok?
    ensures var a := Acquire(ids, outcomes);
            var o := outcomes(i, k);
            a.result == Price(o.price, o.change, i) &&
            |a.attempts| == 4 * i + k + 1 &&
            (a.fallbackLogged <==> ids[i] != ids[0])
  {
    StopFrom(ids, outcomes, 0, 0, None, i, k);
  }

  /**
   * An error outside the retried classes leaves at once: no later attempt
   * and no other source is tried, and the error itself is what is raised.
   */
  lemma EscapeStopsAll(ids: seq<string>, outcomes: (nat, nat) -> Outcome, i: nat, k: nat)
    requires i < |ids| && k < |Backoffs|
    requires forall i': nat, k': nat :: k' < |Backoffs| && 4 * i' + k' < 4 * i + k ==>
               outcomes(i', k').Recoverable?
    requires outcomes(i, k).Escaping?
    ensures var a := Acquire(ids, outcomes);
            a.result == Escaped(outcomes(i, k).err) &&
            |a.attempts| == 4 * i + k + 1 &&
            !a.fallbackLogged
  {
    StopFrom(ids, outcomes, 0, 0, None, i, k);
  }

  // ---------------------------------------------------------------------------
  // Time spent sleeping
  // ---------------------------------------------------------------------------

  /** Seconds slept before the given attempts. */
  function SleptTotal(recs: seq<AttemptRecord>): real {
    if recs == [] then 0.0
    else (if recs[0].slept.Some? then recs[0].slept.value else 0.0) + SleptTotal(recs[1..])
  }

  lemma SleptCons(rec: AttemptRecord, recs: seq<AttemptRecord>)
    ensures SleptTotal([rec] + recs) ==
            (if rec.slept.Some? then rec.slept.value else 0.0) + SleptTotal(recs)
  {
    assert ([rec] + recs)[1..] == recs;
  }

  /** The sum of the backoff delays from index `k` on. */
  function BackoffsFrom(k: nat): (r: real)
    requires k <= |Backoffs|
    ensures r >= 0.0
    decreases |Backoffs| - k
  {
    if k == |Backoffs| then 0.0 else Backoffs[k] + BackoffsFrom(k + 1)
  }

  /** A source's four attempts sleep 9.5 s in all. */
  lemma BackoffsTotal()
    ensures BackoffsFrom(0) == 9.5
  {
    assert BackoffsFrom(3) == 5.0;
    assert BackoffsFrom(1) == 9.5;
  }

  lemma {:induction false} SleptBound(ids: seq<string>, outcomes: (nat, nat) -> Outcome,
                                      i: nat, k: nat, last: Option<FetchError>)
    requires i < |ids| && k <= |Backoffs|
    ensures SleptTotal(RunFrom(ids, outcomes, i, k, last).attempts) <=
            BackoffsFrom(k) + 9.5 * ((|ids| - i - 1) as real)
    decreases |ids| - i, |Backoffs| - k
  {
    if k == |Backoffs| {
      if i + 1 < |ids| {
        SleptBound(ids, outcomes, i + 1, 0, last);
        BackoffsTotal();
      }
    } else {
      RunFromStep(ids, outcomes, i, k, last);
      var outcome := outcomes(i, k);
      var rec := AttemptRecord(i, k + 1, WaitBefore(k), outcome);
      if outcome.Recoverable? {
        SleptBound(ids, outcomes, i, k + 1, Some(outcome.err));
        SleptCons(rec, RunFrom(ids, outcomes, i, k + 1, Some(outcome.err)).attempts);
      } else {
        SleptCons(rec, []);
      }
    }
  }

  /** However the attempts end, one acquisition sleeps at most 9.5 s per source. */
  lemma MaxSleep(ids: seq<string>, outcomes: (nat, nat) -> Outcome)
    ensures SleptTotal(Acquire(ids, outcomes).attempts) <= 9.5 * (|ids| as real)
  {
    if ids != [] {
      SleptBound(ids, outcomes, 0, 0, None);
      BackoffsTotal();
    }
  }
}
