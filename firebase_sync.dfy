/**
 * The persistence side of the relay (`FirebaseManager`): the deny-list
 * that keeps control frames out of the message store, the guards in front
 * of every write, and the bounded retry loop with linear backoff. The
 * database itself is abstract: each write attempt's outcome is supplied
 * by the caller as a function from the attempt number to success.
 */
module FirebaseSync {
  import opened Wrappers
  import opened Text

  // ------------------------------------------------------ control filter

  /** The substrings that mark a text as a control frame. */
  const ControlIndicators: seq<string> := [
    "CONTROL:",
    "{\"type\"",
    "\"type\":",
    "language",
    "control",
    "fontcolor",
    "ping",
    "pong",
    "partial_speech",
    "close_room"]

  /** `_is_control_message`: false for empty text, otherwise whether some
      indicator occurs in the lower-cased text. */
  predicate IsControlMessage(text: string) {
    text != [] && exists i :: 0 <= i < |ControlIndicators| && Contains(Lower(text), ControlIndicators[i])
  }

  /** The upper-case marker is compared against lower-cased text, so it
      never matches by itself. */
  lemma UpperMarkerNeverMatches(text: string)
    ensures !Contains(Lower(text), ControlIndicators[0])
  {
    assert ControlIndicators[0][0] == 'C';
    LowerHasNoCapital(text, ControlIndicators[0]);
  }

  /** Any casing of the `CONTROL:` marker is still caught, through the
      lower-case indicator `control`. */
  lemma MarkerCaughtInAnyCase(text: string, marker: string)
    requires SameUpToCase(marker, "CONTROL:") && Contains(text, marker)
    ensures IsControlMessage(text)
  {
    ContainsLower(text, marker);
    var low := Lower(marker);
    assert |low| == 8;
    assert low[..7] == "control" by {
      forall i | 0 <= i < 7 ensures low[i] == "control"[i] {
        assert LowerChar(marker[i]) == LowerChar("CONTROL:"[i]);
      }
    }
    ContainsPrefix(Lower(text), low, ControlIndicators[4]);
  }

  /** The filter does not depend on letter case. */
  lemma ControlIgnoresCase(a: string, b: string)
    requires SameUpToCase(a, b)
    ensures IsControlMessage(a) <==> IsControlMessage(b)
  {
    LowerSameUpToCase(a, b);
  }

  /** The deny-list matches inside ordinary words: "shopping" contains
      the indicator `ping`. */
  lemma OrdinaryWordBlocked()
    ensures IsControlMessage("shopping")
  {
    var t := "shopping";
    var l := Lower(t);
    assert l[4] == 'p' && l[5] == 'i' && l[6] == 'n' && l[7] == 'g';
    assert l[4..8] == "ping";
    ContainsAt(l, ControlIndicators[6], 4);
    IndicatorOccurs(t, 6);
  }

  /** Any indicator occurring in the lower-cased text marks it. */
  lemma IndicatorOccurs(text: string, i: nat)
    requires text != [] && i < |ControlIndicators| && Contains(Lower(text), ControlIndicators[i])
    ensures IsControlMessage(text)
  {
  }

  // --------------------------------------------------------- retry loop

  /** The first attempt in `[from, limit)` that succeeds, if any. */
  function FirstSuccess(succeeds: nat -> bool, from: nat, limit: nat): (r: Option<nat>)
    ensures r.Some? ==> from <= r.value < limit && succeeds(r.value)
    ensures r.Some? ==> forall k :: from <= k < r.value ==> !succeeds(k)
    ensures r.None? ==> forall k :: from <= k < limit ==> !succeeds(k)
    decreases limit - from
  {
    if from >= limit then None
    else if succeeds(from) then Some(from)
    else FirstSuccess(succeeds, from + 1, limit)
  }

  /** How many attempts the loop makes: up to and including the first
      success, or all of them. */
  function AttemptsMade(succeeds: nat -> bool, maxRetries: nat): (n: nat)
    ensures n <= maxRetries
    ensures n < maxRetries ==> n > 0 && succeeds(n - 1)
    ensures forall k :: 0 <= k < n - 1 ==> !succeeds(k)
  {
    match FirstSuccess(succeeds, 0, maxRetries)
    case Some(k) => k + 1
    case None => maxRetries
  }

  /** The backoff delays, in seconds, after the first `n` failed attempts:
      `0.5 * (k + 1)` after attempt `k`. */
  function Backoff(n: nat): (r: seq<real>)
    ensures |r| == n
    ensures forall k :: 0 <= k < n ==> r[k] == 0.5 * ((k + 1) as real)
  {
    seq(n, k requires 0 <= k < n => 0.5 * ((k + 1) as real))
  }

  /** The default number of attempts. */
  const MaxRetries := 3

  /** With the default of three attempts, total failure waits 0.5 s and
      then 1 s, and nothing after the last attempt. */
  lemma DefaultBackoff()
    ensures Backoff(MaxRetries - 1) == [0.5, 1.0]
  {
  }

  /** `_save_with_retry` / `_delete_with_retry`: up to `maxRetries`
      attempts, stopping at the first success, sleeping after every failed
      attempt but the last. Returns the verdict, the number of attempts
      made and the delays slept, in order. */
  method Retry(succeeds: nat -> bool, maxRetries: nat) returns (ok: bool, attempts: nat, delays: seq<real>)
    ensures ok <==> FirstSuccess(succeeds, 0, maxRetries).Some?
    ensures attempts == AttemptsMade(succeeds, maxRetries)
    ensures delays == Backoff(if attempts == 0 then 0 else attempts - 1)
  {
    var attempt := 0;
    delays := [];
    while attempt < maxRetries
      invariant attempt <= maxRetries
      invariant FirstSuccess(succeeds, 0, maxRetries) == FirstSuccess(succeeds, attempt, maxRetries)
      invariant attempt < maxRetries ==> delays == Backoff(attempt)
      invariant attempt == maxRetries ==> delays == Backoff(if attempt == 0 then 0 else attempt - 1)
    {
      if succeeds(attempt) {
        return true, attempt + 1, delays;
      }
      if attempt < maxRetries - 1 {
        delays := delays + [0.5 * ((attempt + 1) as real)];
      }
      attempt := attempt + 1;
    }
    return false, maxRetries, delays;
  }

  /** Success means some attempt within the budget succeeded; failure means
      every one of them failed. */
  lemma RetryVerdict(succeeds: nat -> bool, maxRetries: nat)
    ensures FirstSuccess(succeeds, 0, maxRetries).Some? <==> exists k :: 0 <= k < maxRetries && succeeds(k)
  {
    if FirstSuccess(succeeds, 0, maxRetries).Some? {
      var k := FirstSuccess(succeeds, 0, maxRetries).value;
      assert 0 <= k < maxRetries && succeeds(k);
    }
  }

  // -------------------------------------------------------------- store

  /** The message record written under `/messages/{room}`; the timestamp
      and the metrics attachment are not modelled. */
  datatype Message = Message(
    original: string,
    translated: string,
    langSource: string,
    langTarget: string,
    roomCreated: bool)

  /** One database operation as issued by the manager. */
  datatype Write = Set(path: string, data: Message) | Delete(path: string)

  function RoomPath(room: string): string {
    "/messages/" + room
  }

  /** `n` copies of the same attempted operation. */
  function Repeat(w: Write, n: nat): (r: seq<Write>)
    ensures |r| == n && forall k :: 0 <= k < n ==> r[k] == w
  {
    seq(n, k requires 0 <= k < n => w)
  }

  /** `create_room`'s placeholder message: the target language is `en`
      for an `id` room and `id` for any other. */
  function RoomOpening(language: string): (r: Message)
    ensures r.langSource == language && r.roomCreated
    ensures r.langTarget == "en" <==> language == "id"
    ensures r.langTarget != "en" ==> r.langTarget == "id"
  {
    Message(" ", " ", language, if language == "id" then "en" else "id", true)
  }

  datatype Probe = Connected(up: bool) | ProbeFailed(reason: string)

  datatype HealthStatus = HealthStatus(status: string, connected: bool, error: Option<string>)

  /** `FirebaseManager`. `log` records every write attempt issued, in
      order, and `delays` every backoff sleep. */
  class FirebaseManager {
    var initialized: bool
    var log: seq<Write>
    var delays: seq<real>

    constructor ()
      ensures !initialized && log == [] && delays == []
    {
      initialized := false;
      log := [];
      delays := [];
    }

    /** `initialize`: `sdkReady` says whether the SDK set-up succeeded. */
    method Initialize(sdkReady: bool) returns (ok: bool)
      modifies this
      ensures ok == (old(initialized) || sdkReady)
      ensures initialized == ok
      ensures log == old(log) && delays == old(delays)
    {
      if !initialized && sdkReady {
        initialized := true;
      }
      ok := initialized;
    }

    method Cleanup()
      modifies this
      ensures !initialized && log == old(log) && delays == old(delays)
    {
      initialized := false;
    }

    /** Runs the retry loop for `w`, recording its attempts and sleeps. */
    method WithRetry(w: Write, succeeds: nat -> bool) returns (ok: bool)
      modifies this
      ensures ok <==> FirstSuccess(succeeds, 0, MaxRetries).Some?
      ensures var n := AttemptsMade(succeeds, MaxRetries);
        && log == old(log) + Repeat(w, n)
        && delays == old(delays) + Backoff(n - 1)
      ensures initialized == old(initialized)
    {
      var attempts, slept;
      ok, attempts, slept := Retry(succeeds, MaxRetries);
      log := log + Repeat(w, attempts);
      delays := delays + slept;
    }

    /** `save_translation`: refused without any write when not initialised
        or when either text is a control message; otherwise one retried
        write of the message. */
    method SaveTranslation(room: string, original: string, translated: string,
                           source: string, target: string, succeeds: nat -> bool) returns (ok: bool)
      modifies this
      ensures !old(initialized) ==> !ok && log == old(log) && delays == old(delays)
      ensures IsControlMessage(original) || IsControlMessage(translated) ==>
        !ok && log == old(log) && delays == old(delays)
      ensures old(initialized) && !IsControlMessage(original) && !IsControlMessage(translated) ==>
        var w := Set(RoomPath(room), Message(original, translated, source, target, false));
        var n := AttemptsMade(succeeds, MaxRetries);
        && (ok <==> FirstSuccess(succeeds, 0, MaxRetries).Some?)
        && log == old(log) + Repeat(w, n)
        && delays == old(delays) + Backoff(n - 1)
      ensures initialized == old(initialized)
    {
      if !initialized {
        return false;
      }
      if IsControlMessage(original) || IsControlMessage(translated) {
        return false;
      }
      ok := WithRetry(Set(RoomPath(room), Message(original, translated, source, target, false)), succeeds);
    }

    /** `create_room`: refused without a write when not initialised;
        otherwise one retried write of the opening message. */
    method CreateRoom(room: string, language: string, succeeds: nat -> bool) returns (ok: bool)
      modifies this
      ensures !old(initialized) ==> !ok && log == old(log) && delays == old(delays)
      ensures old(initialized) ==>
        var n := AttemptsMade(succeeds, MaxRetries);
        && (ok <==> FirstSuccess(succeeds, 0, MaxRetries).Some?)
        && log == old(log) + Repeat(Set(RoomPath(room), RoomOpening(language)), n)
        && delays == old(delays) + Backoff(n - 1)
      ensures initialized == old(initialized)
    {
      if !initialized {
        return false;
      }
      ok := WithRetry(Set(RoomPath(room), RoomOpening(language)), succeeds);
    }

    /** `delete_room`: refused without a write when not initialised;
        otherwise one retried delete of the room's messages. */
    method DeleteRoom(room: string, succeeds: nat -> bool) returns (ok: bool)
      modifies this
      ensures !old(initialized) ==> !ok && log == old(log) && delays == old(delays)
      ensures old(initialized) ==>
        var n := AttemptsMade(succeeds, MaxRetries);
        && (ok <==> FirstSuccess(succeeds, 0, MaxRetries).Some?)
        && log == old(log) + Repeat(Delete(RoomPath(room)), n)
        && delays == old(delays) + Backoff(n - 1)
      ensures initialized == old(initialized)
    {
      if !initialized {
        return false;
      }
      ok := WithRetry(Delete(RoomPath(room)), succeeds);
    }

    /** `get_health_status`; `probe` is the read of `/.info/connected`. */
    function GetHealthStatus(probe: Probe): (r: HealthStatus)
      reads this
      ensures !initialized ==> r == HealthStatus("not_initialized", false, Some("Firebase not initialized"))
      ensures r.connected <==> initialized && probe == Connected(true)
      ensures r.error.Some? <==> !initialized || probe.ProbeFailed?
    {
      if !initialized then HealthStatus("not_initialized", false, Some("Firebase not initialized"))
      else match probe
        case Connected(up) => HealthStatus(if up then "healthy" else "disconnected", up, None)
        case ProbeFailed(reason) => HealthStatus("error", false, Some(reason))
    }
  }
}
