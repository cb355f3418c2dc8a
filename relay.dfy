/**
 * The WebSocket relay (`ws_router.py`): the frame dispatcher of one
 * room connection and the components it drives. Sockets are connection
 * ids; what the outside world does during one frame (the JSON decoder,
 * the neural model, the clocks, which sends fail, whether the Firebase
 * delete takes) arrives as an `Inputs` value.
 */
module Relay {
  import opened Wrappers
  import opened Text
  import P = Protocol
  import R = Rooms
  import M = Metrics
  import T = Translator
  import F = FirebaseSync

  // ------------------------------------------------------- client keys

  /** The character of one decimal digit. */
  function Digit(d: nat): (c: char)
    requires d < 10
    ensures '0' <= c <= '9'
  {
    (48 + d) as char
  }

  /** `str(client_id)`: the key the rate limiter files a connection
      under, the decimal rendering of its id. */
  function ClientKey(n: nat): (r: string)
    ensures r != []
    ensures forall i :: 0 <= i < |r| ==> '0' <= r[i] <= '9'
    ensures n >= 10 ==> |r| >= 2
    decreases n
  {
    if n < 10 then [Digit(n)] else ClientKey(n / 10) + [Digit(n % 10)]
  }

  /** Distinct connections never share a rate-limit window. */
  lemma {:induction false} ClientKeyInjective(a: nat, b: nat)
    requires ClientKey(a) == ClientKey(b)
    ensures a == b
    decreases a
  {
    var ka, kb := ClientKey(a), ClientKey(b);
    if a < 10 && b < 10 {
      assert Digit(a) == ka[0] == kb[0] == Digit(b);
      assert (Digit(a) as int) == 48 + a && (Digit(b) as int) == 48 + b;
    } else if a >= 10 && b >= 10 {
      assert ka[|ka| - 1] == Digit(a % 10) && kb[|kb| - 1] == Digit(b % 10);
      assert (Digit(a % 10) as int) == 48 + a % 10 && (Digit(b % 10) as int) == 48 + b % 10;
      assert ka[..|ka| - 1] == ClientKey(a / 10) && kb[..|kb| - 1] == ClientKey(b / 10);
      ClientKeyInjective(a / 10, b / 10);
    }
  }

  /** A client's current window; an unseen client has an empty one. */
  function Window(windows: map<string, seq<real>>, key: string): (q: seq<real>)
    ensures key !in windows ==> q == []
    ensures key in windows ==> q == windows[key]
  {
    if key in windows then windows[key] else []
  }

  // ---------------------------------------------------------- dispatch

  /** Where `websocket_endpoint` sends one received frame. */
  datatype Route =
    | Control(action: P.Action)
    | Duplicate
    | Placeholder
    | RateLimited
    | Forwarded

  /** The order of the checks in the receive loop: control frames first,
      then the duplicate check against the sender's last payload, then the
      placeholder phrases, then the rate-limit window; what passes all of
      them is translated. */
  function Dispatch(data: string, parse: P.Parser, last: map<nat, string>, ws: nat,
                    window: seq<real>, now: real, limit: nat): Route
  {
    var control := P.Classify(data, parse);
    if control.Some? then Control(control.value)
    else if R.DuplicateStep(last, ws, data).0 then Duplicate
    else if P.IsPlaceholder(data) then Placeholder
    else if !M.RateStep(window, now, limit).0 then RateLimited
    else Forwarded
  }

  /** Control frames, duplicates and placeholders are decided before the
      rate-limit window is looked at: any other window routes them the
      same way, so they never spend budget. */
  lemma WindowNotConsulted(data: string, parse: P.Parser, last: map<nat, string>, ws: nat,
                           w1: seq<real>, w2: seq<real>, now: real, limit: nat)
    requires !Dispatch(data, parse, last, ws, w1, now, limit).RateLimited?
    requires !Dispatch(data, parse, last, ws, w1, now, limit).Forwarded?
    ensures Dispatch(data, parse, last, ws, w2, now, limit) == Dispatch(data, parse, last, ws, w1, now, limit)
  {
  }

  /** Only a frame that is not a control frame, differs from the sender's
      last payload, is no placeholder and fits the window is translated. */
  lemma ForwardedFrames(data: string, parse: P.Parser, last: map<nat, string>, ws: nat,
                        window: seq<real>, now: real, limit: nat)
    ensures Dispatch(data, parse, last, ws, window, now, limit).Forwarded? <==>
      && P.Classify(data, parse).None?
      && !(ws in last && last[ws] == data)
      && !P.IsPlaceholder(data)
      && |M.Prune(window, now)| < limit
  {
  }

  /** A placeholder phrase, however padded with whitespace, is never
      translated nor counted against the window. */
  lemma PlaceholderNeverTranslated(w1: string, p: string, w2: string, parse: P.Parser,
                                   last: map<nat, string>, ws: nat, window: seq<real>, now: real, limit: nat)
    requires AllSpace(w1) && AllSpace(w2) && p in P.Placeholders
    ensures var r := Dispatch(w1 + p + w2, parse, last, ws, window, now, limit);
      !r.RateLimited? && !r.Forwarded?
  {
    P.PlaceholderIgnoresSpace(w1, p, w2);
  }

  /** An ordinary frame arriving when the sender's window already holds
      `limit` requests, all within the last minute, is rejected. */
  lemma BusyClientRejected(data: string, parse: P.Parser, last: map<nat, string>, ws: nat,
                           window: seq<real>, now: real, limit: nat)
    requires P.Classify(data, parse).None? && !(ws in last && last[ws] == data) && !P.IsPlaceholder(data)
    requires 0 < limit && |window| == limit
    requires forall i :: 0 <= i < |window| ==> now - window[i] <= M.WindowSeconds
    ensures Dispatch(data, parse, last, ws, window, now, limit) == RateLimited
  {
    M.FullWindowRejects(window, now, limit);
  }

  // ------------------------------------------------------------ relay

  /** What the outside world does while one frame is handled. */
  datatype Inputs = Inputs(
    parse: P.Parser,            // json.loads
    model: T.Model,             // _perform_translation
    clock: T.Clock,             // the timings translate_text measures
    now: real,                  // time.time() at the rate-limit check
    failing: set<nat>,          // connections whose send this frame fails
    deleteSucceeds: nat -> bool // outcome of each Firebase delete attempt
  )

  /** The `metrics_update` payload: `get_health_metrics` and
      `get_detailed_stats`. */
  datatype MetricsUpdate = MetricsUpdate(
    health: M.HealthMetrics,
    translationPercentiles: M.Percentiles,
    preprocessingPercentiles: M.Percentiles,
    errorBreakdown: map<string, nat>,
    languagePairStats: map<string, M.PairStats>,
    hourlyDistribution: map<nat, nat>
  )

  /** The module-level state of `ws_router.py`: the connection manager and
      the components `initialize_components` injects. */
  class Relay {
    const rooms: R.ConnectionManager
    const engine: T.TranslationEngine
    const metrics: M.MetricsManager
    const firebase: F.FirebaseManager

    ghost predicate Valid()
      reads this, rooms, engine, engine.cache, metrics
    {
      rooms.Valid() && engine.Valid() && metrics.Valid()
    }

    /** `initialize_components`, with a room capacity, a cache size and a
        per-minute request limit. */
    constructor (maxPerRoom: nat, cacheSize: nat, rateLimit: nat)
      requires cacheSize > 0
      ensures Valid()
      ensures fresh(rooms) && fresh(engine) && fresh(engine.cache) && fresh(metrics) && fresh(firebase)
      ensures rooms.maxPerRoom == maxPerRoom && engine.cache.maxSize == cacheSize && metrics.rateLimit == rateLimit
      ensures engine.Pristine(cacheSize)
      ensures rooms.State() == R.Registry(map[], map[], map[]) && rooms.metricsConnections == {}
      ensures metrics.recorded == [] && metrics.errors == [] && metrics.clientRequests == map[]
      ensures !firebase.initialized && firebase.log == [] && firebase.delays == []
    {
      rooms := new R.ConnectionManager(maxPerRoom);
      engine := new T.TranslationEngine(cacheSize);
      metrics := new M.MetricsManager(rateLimit);
      firebase := new F.FirebaseManager();
    }

    /** The connection attempt at the top of `websocket_endpoint`. */
    method Join(ws: nat, room: string) returns (ok: bool)
      requires Valid()
      modifies rooms
      ensures Valid()
      ensures ok <==> |R.Members(old(rooms.State()), room)| < rooms.maxPerRoom
      ensures rooms.activeConnections == old(rooms.activeConnections)[room := R.Members(old(rooms.State()), room) + (if ok then {ws} else {})]
      ensures rooms.roomLanguages == old(rooms.roomLanguages) && rooms.clientLastMessage == old(rooms.clientLastMessage)
      ensures rooms.metricsConnections == old(rooms.metricsConnections)
    {
      ok := rooms.Connect(ws, room);
    }

    /** The end of a session, on a normal or an abnormal close; the
        client's rate-limit window outlives it. */
    method Leave(ws: nat, room: string)
      requires Valid()
      modifies rooms
      ensures Valid()
      ensures rooms.State() == R.Disconnected(old(rooms.State()), ws, room)
      ensures rooms.metricsConnections == old(rooms.metricsConnections)
      ensures metrics.clientRequests == old(metrics.clientRequests)
    {
      rooms.Disconnect(ws, room);
    }

    /** What `process_control_json` does for `action`, between the state
        before the frame and the state after it; `reply` goes to the
        sender, `out` is broadcast to the room and reaches `delivered`. */
    twostate predicate ControlDone(room: string, action: P.Action, env: Inputs,
                                   new reply: Option<P.Reply>, new out: Option<P.Outgoing>, delivered: set<nat>)
      requires engine.cache.maxSize > 0
      reads this, rooms, engine, engine.cache, firebase
    {
      && (rooms.clientLastMessage == old(rooms.clientLastMessage) || out.Some?)
      && (out.None? ==>
            && delivered == {}
            && rooms.activeConnections == old(rooms.activeConnections)
            && rooms.clientLastMessage == old(rooms.clientLastMessage))
      && (!action.SetLanguage? && out.None? ==> rooms.roomLanguages == old(rooms.roomLanguages))
      && (out.Some? ==>
            && delivered == R.Members(old(rooms.State()), room) - env.failing
            && rooms.State() == R.AfterBroadcast(old(rooms.State()), room, env.failing))
      && (!(action.PartialSpeech? && action.text != []) ==> engine.cache.entries == old(engine.cache.entries))
      && (!(action.CloseRoom? && action.deleteData && old(firebase.initialized)) ==>
            firebase.log == old(firebase.log) && firebase.delays == old(firebase.delays))
      && firebase.initialized == old(firebase.initialized)
      && rooms.metricsConnections == old(rooms.metricsConnections)
      // language
      && (action.SetLanguage? ==>
            && reply == Some(P.Ack("Language set successfully")) && out.None?
            && rooms.roomLanguages == old(rooms.roomLanguages)[room := action.language]
            && rooms.activeConnections == old(rooms.activeConnections))
      && (action.LanguageIgnored? ==> reply.None? && out.None?)
      // ping
      && (action.Pong? ==> reply == Some(P.PongReply(action.timestamp)) && out.None?)
      // partial speech
      && (action.PartialSpeech? && action.text == [] ==> reply.None? && out.None?)
      && (action.PartialSpeech? && action.text != [] ==>
            var target := R.TargetFor(action.language);
            var t := T.Translate(old(engine.cache.entries), engine.cache.maxSize, engine.idSentences, engine.enSentences,
                                 action.text, action.language, target, true, env.model, env.clock);
            && reply.None?
            && out == Some(P.PartialResult(action.text, t.text, action.language, target))
            && engine.cache.entries == t.entries)
      // room closure
      && (action.CloseRoom? ==> reply == Some(P.Ack("Room closed successfully")) && out == Some(P.RoomClosed))
      && (action.CloseRoom? && action.deleteData && old(firebase.initialized) ==>
            var n := F.AttemptsMade(env.deleteSucceeds, F.MaxRetries);
            && firebase.log == old(firebase.log) + F.Repeat(F.Delete(F.RoomPath(room)), n)
            && firebase.delays == old(firebase.delays) + F.Backoff(n - 1))
    }

    /** `process_control_json` once the type switch has chosen `action`,
        with `process_partial_speech` and `process_room_closure`. Returns
        the reply to the sender, the payload broadcast to the room and
        the members it reached. */
    method ProcessControl(room: string, action: P.Action, env: Inputs)
      returns (reply: Option<P.Reply>, out: Option<P.Outgoing>, delivered: set<nat>)
      requires Valid()
      modifies rooms, engine.cache, firebase
      ensures Valid()
      ensures ControlDone(room, action, env, reply, out, delivered)
    {
      reply, out, delivered := None, None, {};
      match action
      case SetLanguage(language) =>
        rooms.SetRoomLanguage(room, language);
        reply := Some(P.Ack("Language set successfully"));
      case LanguageIgnored =>
      case Pong(timestamp) =>
        reply := Some(P.PongReply(timestamp));
      case PartialSpeech(text, language) =>
        if text != [] {
          var target := R.TargetFor(language);
          var translated, _ := engine.TranslateText(text, language, target, true, env.model, env.clock);
          out := Some(P.PartialResult(text, translated, language, target));
          delivered := rooms.BroadcastToRoom(room, env.failing);
        }
      case CloseRoom(deleteData) =>
        if deleteData {
          var _ := firebase.DeleteRoom(room, env.deleteSucceeds);
        }
        out := Some(P.RoomClosed);
        delivered := rooms.BroadcastToRoom(room, env.failing);
        reply := Some(P.Ack("Room closed successfully"));
    }

    /** `process_translation_message`: the frame is translated from the
        room's language, recorded and broadcast to the room. */
    method ProcessTranslation(room: string, data: string, env: Inputs)
      returns (out: P.Outgoing, delivered: set<nat>)
      requires Valid()
      modifies rooms, engine.cache, metrics
      ensures Valid()
      ensures var source := R.RoomLanguage(old(rooms.roomLanguages), room);
        var target := R.TargetFor(source);
        var t := T.Translate(old(engine.cache.entries), engine.cache.maxSize, engine.idSentences, engine.enSentences,
                             data, source, target, false, env.model, env.clock);
        && out == P.TranslationResult(data, t.text, source, target, t.metrics.cacheHit)
        && engine.cache.entries == t.entries
        && metrics.recorded == old(metrics.recorded) + [t.metrics]
      ensures delivered == R.Members(old(rooms.State()), room) - env.failing
      ensures rooms.State() == R.AfterBroadcast(old(rooms.State()), room, env.failing)
      ensures rooms.metricsConnections == old(rooms.metricsConnections)
      ensures metrics.clientRequests == old(metrics.clientRequests) && metrics.errors == old(metrics.errors)
    {
      var source := rooms.GetRoomLanguage(room);
      var target := R.TargetFor(source);
      var translated, m := engine.TranslateText(data, source, target, false, env.model, env.clock);
      metrics.RecordTranslation(m);
      out := P.TranslationResult(data, translated, source, target, m.cacheHit);
      delivered := rooms.BroadcastToRoom(room, env.failing);
    }

    /** One pass of the receive loop of `websocket_endpoint` for a frame
        `data` from connection `ws` in `room`. */
    method HandleFrame(ws: nat, room: string, data: string, env: Inputs)
      returns (route: Route, reply: Option<P.Reply>, out: Option<P.Outgoing>, delivered: set<nat>)
      requires Valid()
      modifies rooms, engine.cache, metrics, firebase
      ensures Valid()
      ensures route == Dispatch(data, env.parse, old(rooms.clientLastMessage), ws,
                                Window(old(metrics.clientRequests), ClientKey(ws)), env.now, metrics.rateLimit)
      ensures rooms.metricsConnections == old(rooms.metricsConnections)
      ensures metrics.errors == old(metrics.errors)
      // control frames do what `ProcessControl` does and leave the metrics alone
      ensures route.Control? ==>
        && ControlDone(room, route.action, env, reply, out, delivered)
        && metrics.clientRequests == old(metrics.clientRequests)
        && metrics.recorded == old(metrics.recorded)
      // only a room closure writes to Firebase
      ensures !route.Control? ==>
        firebase.log == old(firebase.log) && firebase.delays == old(firebase.delays)
        && firebase.initialized == old(firebase.initialized)
      // frames the pipeline stops early change only the duplicate record
      // and, for a rejection, the window
      ensures route.Duplicate? || route.Placeholder? || route.RateLimited? ==>
        && out.None? && delivered == {}
        && rooms.clientLastMessage == R.DuplicateStep(old(rooms.clientLastMessage), ws, data).1
        && rooms.activeConnections == old(rooms.activeConnections)
        && rooms.roomLanguages == old(rooms.roomLanguages)
        && engine.cache.entries == old(engine.cache.entries)
        && metrics.recorded == old(metrics.recorded)
      ensures route.Duplicate? || route.Placeholder? ==> metrics.clientRequests == old(metrics.clientRequests)
      ensures route.Duplicate? ==> reply == Some(P.Ack("Message received (duplicate ignored)"))
      ensures route.Placeholder? ==> reply == Some(P.PlaceholderEcho(data, P.PlaceholderTranslation(data)))
      ensures route.RateLimited? ==> reply == Some(P.Failure("Rate limit exceeded"))
      ensures route.RateLimited? || route.Forwarded? ==>
        var key := ClientKey(ws);
        metrics.clientRequests ==
          old(metrics.clientRequests)[key := M.RateStep(Window(old(metrics.clientRequests), key), env.now, metrics.rateLimit).1]
      // a translated frame
      ensures route.Forwarded? ==>
        var source := R.RoomLanguage(old(rooms.roomLanguages), room);
        var target := R.TargetFor(source);
        var t := T.Translate(old(engine.cache.entries), engine.cache.maxSize, engine.idSentences, engine.enSentences,
                             data, source, target, false, env.model, env.clock);
        && reply.None?
        && out == Some(P.TranslationResult(data, t.text, source, target, t.metrics.cacheHit))
        && engine.cache.entries == t.entries
        && metrics.recorded == old(metrics.recorded) + [t.metrics]
        && delivered == R.Members(old(rooms.State()), room) - env.failing
        && rooms.State() == R.AfterBroadcast(R.Registry(old(rooms.activeConnections), old(rooms.roomLanguages),
                                                        R.DuplicateStep(old(rooms.clientLastMessage), ws, data).1),
                                             room, env.failing)
    {
      reply, out, delivered := None, None, {};
      var control := P.Classify(data, env.parse);
      if control.Some? {
        route := Control(control.value);
        reply, out, delivered := ProcessControl(room, control.value, env);
        return;
      }
      var dup := rooms.IsDuplicateMessage(ws, data);
      if dup {
        route := Duplicate;
        reply := Some(P.Ack("Message received (duplicate ignored)"));
        return;
      }
      if P.IsPlaceholder(data) {
        route := Placeholder;
        reply := Some(P.PlaceholderEcho(data, P.PlaceholderTranslation(data)));
        return;
      }
      var withinLimit := metrics.CheckRateLimit(ClientKey(ws), env.now);
      if !withinLimit {
        route := RateLimited;
        reply := Some(P.Failure("Rate limit exceeded"));
        return;
      }
      route := Forwarded;
      var o;
      o, delivered := ProcessTranslation(room, data, env);
      out := Some(o);
    }

    /** One tick of `metrics_pusher`: with subscribers present, the health
        snapshot and the detailed statistics go to all of them and the
        ones whose send fails are dropped; with none, nothing is computed
        or sent. */
    method PushMetricsTick(failing: set<nat>)
      returns (payload: Option<MetricsUpdate>, delivered: set<nat>)
      requires Valid()
      modifies rooms
      ensures Valid()
      ensures payload.Some? <==> old(rooms.metricsConnections) != {}
      ensures payload.Some? ==>
        var u := payload.value;
        var pct := metrics.DetailedPercentiles();
        && u.health == metrics.HealthSnapshot()
        && u.translationPercentiles == pct.0 && u.preprocessingPercentiles == pct.1
        && u.errorBreakdown == M.Tally(metrics.errors)
        && u.languagePairStats == M.Averaged(M.PairTotals(metrics.translationMetrics))
        && u.hourlyDistribution == M.Tally(M.Hours(metrics.translationMetrics))
      ensures delivered == old(rooms.metricsConnections) - failing
      ensures rooms.metricsConnections == old(rooms.metricsConnections) - failing
      ensures rooms.State() == old(rooms.State())
    {
      if rooms.metricsConnections == {} {
        return None, {};
      }
      var health := metrics.HealthSnapshot();
      var pct := metrics.DetailedPercentiles();
      var pairs := metrics.LanguagePairStats();
      var hours := metrics.HourlyDistribution();
      payload := Some(MetricsUpdate(health, pct.0, pct.1, metrics.errorCounts, pairs, hours));
      delivered := rooms.BroadcastMetrics(failing);
    }
  }
}
