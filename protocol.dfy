/**
 * The relay's frame protocol: which incoming text frames are control
 * frames and what they ask for, the placeholder phrases, and the payloads
 * the relay sends. JSON decoding itself is abstract (`Parser`).
 */
module Protocol {
  import opened Wrappers
  import opened Text

  /** A decoded JSON value. */
  datatype Json =
    | JNull
    | JBool(b: bool)
    | JNum(n: real)
    | JStr(s: string)
    | JArr(items: seq<Json>)
    | JObj(fields: map<string, Json>)

  /** `json.loads`: the decoded value, or None when decoding fails. */
  type Parser = string -> Option<Json>

  /** Python truthiness of a decoded value. */
  predicate Truthy(j: Json) {
    match j
    case JNull => false
    case JBool(b) => b
    case JNum(n) => n != 0.0
    case JStr(s) => s != []
    case JArr(items) => items != []
    case JObj(fields) => fields != map[]
  }

  /** `dict.get(key, default)`. */
  function Get(fields: map<string, Json>, key: string, default: Json): Json {
    if key in fields then fields[key] else default
  }

  /** What a recognised control frame asks for. */
  datatype Action =
    | SetLanguage(language: string)
    | LanguageIgnored
    | Pong(timestamp: Json)
    | PartialSpeech(text: string, language: string)
    | CloseRoom(deleteData: bool)

  // ------------------------------------------------------- control frames

  /** `process_control_json`'s type switch: the action for the four known
      types, None (not handled) for any other. */
  function ControlAction(fields: map<string, Json>): (r: Option<Action>) {
    var t := Get(fields, "type", JNull);
    if t == JStr("language") then
      var l := Get(fields, "language", JNull);
      Some(if l.JStr? && l.s != [] then SetLanguage(l.s) else LanguageIgnored)
    else if t == JStr("ping") then Some(Pong(Get(fields, "timestamp", JNull)))
    else if t == JStr("partial_speech") then
      var text := Get(fields, "text", JStr(""));
      var language := Get(fields, "language", JStr("id"));
      Some(PartialSpeech(if text.JStr? then text.s else "", if language.JStr? then language.s else "id"))
    else if t == JStr("close_room") then Some(CloseRoom(Truthy(Get(fields, "delete_data", JBool(false)))))
    else None
  }

  /** Exactly the four control types are handled. */
  lemma ControlTypes(fields: map<string, Json>)
    ensures ControlAction(fields).Some? <==>
      Get(fields, "type", JNull) in {JStr("language"), JStr("ping"), JStr("partial_speech"), JStr("close_room")}
  {
  }

  /** A `language` frame whose value is missing or empty is handled but
      sets nothing; a non-empty value is the room's new language. */
  lemma LanguageFrame(fields: map<string, Json>)
    requires Get(fields, "type", JNull) == JStr("language")
    ensures "language" !in fields || fields["language"] == JStr("") ==> ControlAction(fields) == Some(LanguageIgnored)
    ensures "language" in fields && fields["language"].JStr? && fields["language"].s != [] ==>
      ControlAction(fields) == Some(SetLanguage(fields["language"].s))
  {
  }

  /** The `ping` reply echoes the request's timestamp (null when absent). */
  lemma PingEchoesTimestamp(fields: map<string, Json>)
    requires Get(fields, "type", JNull) == JStr("ping")
    ensures "timestamp" in fields ==> ControlAction(fields) == Some(Pong(fields["timestamp"]))
    ensures "timestamp" !in fields ==> ControlAction(fields) == Some(Pong(JNull))
  {
  }

  /** The legacy marker. */
  const Marker := "CONTROL:"

  /** The first check of `handle_control_message`: a frame whose stripped
      text starts with `{` and decodes to an object with a `type` decides
      the verdict by itself. */
  function JsonControl(data: string, parse: Parser): (r: Option<Option<Action>>) {
    if StartsWith(Strip(data), "{") then
      match parse(data)
      case Some(JObj(fields)) => if "type" in fields then Some(ControlAction(fields)) else None
      case _ => None
    else None
  }

  /** The second check: the text between the first and the second marker,
      decoded; anything but an object is not handled. */
  function MarkerControl(data: string, parse: Parser): (r: Option<Action>) {
    if Contains(data, Marker) then
      match parse(SecondPiece(data, Marker))
      case Some(JObj(fields)) => ControlAction(fields)
      case _ => None
    else None
  }

  /** `handle_control_message`: the action of a control frame, or None
      for a frame that goes on to the translation pipeline. */
  function Classify(data: string, parse: Parser): Option<Action> {
    match JsonControl(data, parse)
    case Some(verdict) => verdict
    case None => MarkerControl(data, parse)
  }

  /** A JSON object frame with a `type` is judged by its type alone, even
      if it also carries the marker. */
  lemma JsonFrameDecides(data: string, parse: Parser, fields: map<string, Json>)
    requires StartsWith(Strip(data), "{") && parse(data) == Some(JObj(fields)) && "type" in fields
    ensures Classify(data, parse) == ControlAction(fields)
  {
  }

  /** Otherwise the marker decides: a frame is handled exactly when it
      carries the marker and the text after it decodes to an object, and
      then the type switch judges that object. */
  lemma MarkerFrameDecides(data: string, parse: Parser)
    requires JsonControl(data, parse).None?
    ensures Classify(data, parse).Some? ==> Contains(data, Marker)
    ensures Classify(data, parse).Some? ==> parse(SecondPiece(data, Marker)).Some?
    ensures Classify(data, parse).Some? ==> parse(SecondPiece(data, Marker)).value.JObj?
    ensures Classify(data, parse).Some? ==>
      Classify(data, parse) == ControlAction(parse(SecondPiece(data, Marker)).value.fields)
    ensures (Contains(data, Marker) && parse(SecondPiece(data, Marker)).Some?
             && parse(SecondPiece(data, Marker)).value.JObj?) ==>
      Classify(data, parse) == ControlAction(parse(SecondPiece(data, Marker)).value.fields)
  {
  }

  /** A frame that is neither a typed JSON object nor marked is an
      ordinary payload. */
  lemma PlainFrameNotControl(data: string, parse: Parser)
    requires !StartsWith(Strip(data), "{") && !Contains(data, Marker)
    ensures Classify(data, parse).None?
  {
  }

  // ---------------------------------------------------------- placeholders

  /** The default phrases the client shows before anyone speaks. */
  const Placeholders: seq<string> := ["tekan tombol dan mulai berbicara", "Press the button and start speaking"]

  /** `is_placeholder_message`: an exact, case-sensitive match after
      stripping. */
  predicate IsPlaceholder(data: string) {
    Strip(data) in Placeholders
  }

  /** `send_placeholder_response`'s translation. */
  function PlaceholderTranslation(data: string): (r: string) {
    if Strip(data) == Placeholders[0] then "Press the button and start speaking"
    else "Tekan tombol dan mulai berbicara"
  }

  /** The Indonesian phrase is answered with the English one; the English
      phrase with a capitalised Indonesian one, which itself is not a
      placeholder. */
  lemma PlaceholderReplies(data: string)
    requires IsPlaceholder(data)
    ensures Strip(data) == Placeholders[0] ==> PlaceholderTranslation(data) == Placeholders[1]
    ensures Strip(data) == Placeholders[1] ==> !IsPlaceholder(PlaceholderTranslation(data))
  {
    if Strip(data) == Placeholders[1] {
      var t := PlaceholderTranslation(data);
      assert t[0] == 'T';
      StripOfWord(t);
    }
  }

  /** A text with no surrounding whitespace strips to itself. */
  lemma StripOfWord(t: string)
    requires t != [] && !IsSpace(t[0]) && !IsSpace(t[|t| - 1])
    ensures Strip(t) == t
  {
    StripIgnoresSurroundingSpace([], t, []);
    assert [] + t + [] == t;
  }

  /** Surrounding whitespace does not hide a placeholder. */
  lemma PlaceholderIgnoresSpace(w1: string, p: string, w2: string)
    requires AllSpace(w1) && AllSpace(w2) && p in Placeholders
    ensures IsPlaceholder(w1 + p + w2)
  {
    StripIgnoresSurroundingSpace(w1, p, w2);
    PlaceholdersStripped();
  }

  /** Both placeholders are free of surrounding whitespace. */
  lemma PlaceholdersStripped()
    ensures Strip(Placeholders[0]) == Placeholders[0] && Strip(Placeholders[1]) == Placeholders[1]
  {
    StripOfWord(Placeholders[0]);
    StripOfWord(Placeholders[1]);
  }

  // --------------------------------------------------------------- output

  /** What the relay sends back to the sender of a frame. */
  datatype Reply =
    | Ack(message: string)
    | Failure(message: string)
    | PongReply(timestamp: Json)
    | PlaceholderEcho(original: string, translated: string)

  /** What the relay broadcasts to a room. */
  datatype Outgoing =
    | TranslationResult(original: string, translated: string, source: string, target: string, cacheHit: bool)
    | PartialResult(original: string, translated: string, source: string, target: string)
    | RoomClosed
}
