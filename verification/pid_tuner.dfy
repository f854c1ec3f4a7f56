/** The PID tuning web endpoint: its hand-written JSON reader, the `/update`
    request handler and the read-and-clear "has updates" flag the robot
    polls. Sockets and threads are not modelled; each request is one call. */
module PidTuner {
  import opened Wrappers
  import opened JavaText
  import SwerveDrive

  /** A value the reader stores: a string or a number. */
  datatype JsonValue = JString(s: string) | JNumber(x: real)

  type Json = map<string, JsonValue>

  /** The exceptions reading and handling a request can raise. */
  datatype Fault =
    | StringIndexOutOfBounds   // a value that is a lone '"'
    | ClassCast(key: string)   // a field of the wrong kind
    | NullPointer(key: string) // a numeric field that is absent

  /** `Double.parseDouble`, given as a parameter: `None` where Java throws
      `NumberFormatException`. */
  type DoubleParser = string -> Option<real>

  // ------------------------------------------------------------ the reader

  /** Trim, then drop at most one leading '{' and at most one trailing '}'. */
  function StripBraces(json: string): (r: string)
    ensures |r| <= |json|
  {
    var t := Trim(json);
    var a := if StartsWith(t, '{') then t[1..] else t;
    if EndsWith(a, '}') then a[..|a| - 1] else a
  }

  /** What stripping keeps: a slice of the trimmed text at most two
      characters shorter, starting after the '{' when there is one, and the
      trimmed text itself when there is neither brace. */
  lemma StripBracesShape(json: string)
    ensures |Trim(json)| - 2 <= |StripBraces(json)| <= |Trim(json)|
    ensures StartsWith(Trim(json), '{') ==>
      |StripBraces(json)| < |Trim(json)| && StripBraces(json) == Trim(json)[1..1 + |StripBraces(json)|]
    ensures !StartsWith(Trim(json), '{') ==> StripBraces(json) == Trim(json)[..|StripBraces(json)|]
    ensures !StartsWith(Trim(json), '{') && !EndsWith(Trim(json), '}') ==> StripBraces(json) == Trim(json)
  {
    var t, r := Trim(json), StripBraces(json);
    if StartsWith(t, '{') {
      var a := t[1..];
      if EndsWith(a, '}') {
        assert r == a[..|a| - 1] == t[1..|t| - 1];
      } else {
        assert r == a == t[1..|t|];
      }
    } else if EndsWith(t, '}') {
      assert r == t[..|t| - 1];
    } else {
      assert r == t == t[..|t|];
    }
  }

  /** The value part of a pair, already trimmed: a quoted string loses its
      quotes, anything else is a number if it parses and raw text if not. */
  function ParseValue(value: string, parseDouble: DoubleParser): (r: Result<JsonValue, Fault>)
    ensures r.Err? <==> value == "\""
    ensures r.Ok? && r.value.JNumber? ==> parseDouble(value) == Some(r.value.x)
    ensures |value| >= 2 && value[0] == '"' && value[|value| - 1] == '"' ==> r == Ok(JString(value[1..|value| - 1]))
    ensures !(StartsWith(value, '"') && EndsWith(value, '"')) && parseDouble(value).Some? ==>
      r == Ok(JNumber(parseDouble(value).value))
    ensures !(StartsWith(value, '"') && EndsWith(value, '"')) && parseDouble(value).None? ==>
      r == Ok(JString(value))
  {
    if StartsWith(value, '"') && EndsWith(value, '"') then
      if |value| == 1 then Err(StringIndexOutOfBounds) else Ok(JString(value[1..|value| - 1]))
    else match parseDouble(value)
      case Some(x) => Ok(JNumber(x))
      case None => Ok(JString(value))
  }

  /** One comma-separated piece: kept only if it splits on ':' into exactly
      two parts; the key is trimmed and loses every '"'. */
  function ParsePair(pair: string, parseDouble: DoubleParser): (r: Result<Option<(string, JsonValue)>, Fault>)
    ensures r.Ok? && r.value.Some? ==> '"' !in r.value.value.0
    ensures |JavaSplit(pair, ':')| != 2 ==> r == Ok(None)
  {
    var kv := JavaSplit(pair, ':');
    if |kv| != 2 then Ok(None)
    else
      var key := RemoveAll(Trim(kv[0]), '"');
      match ParseValue(Trim(kv[1]), parseDouble)
      case Err(e) => Err(e)
      case Ok(v) => Ok(Some((key, v)))
  }

  /** Read the pieces in order into `acc`, a later key overwriting an
      earlier one; the first fault aborts. */
  function ParsePairs(acc: Json, pairs: seq<string>, parseDouble: DoubleParser): (r: Result<Json, Fault>)
    ensures r.Ok? ==> acc.Keys <= r.value.Keys
    ensures r.Ok? ==> forall k :: k in r.value && k !in acc ==> '"' !in k
    ensures r.Err? ==> r.error == StringIndexOutOfBounds
    decreases |pairs|
  {
    if |pairs| == 0 then Ok(acc)
    else match ParsePair(pairs[0], parseDouble)
      case Err(e) => Err(e)
      case Ok(None) => ParsePairs(acc, pairs[1..], parseDouble)
      case Ok(Some(kv)) => ParsePairs(acc[kv.0 := kv.1], pairs[1..], parseDouble)
  }

  /** `parseJson`: no key of the result holds a '"', and the one fault is a
      lone '"' value. */
  function ParseJson(json: string, parseDouble: DoubleParser): (r: Result<Json, Fault>)
    ensures r.Ok? ==> forall k :: k in r.value ==> '"' !in k
    ensures r.Err? ==> r.error == StringIndexOutOfBounds
  {
    ParsePairs(map[], JavaSplit(StripBraces(json), ','), parseDouble)
  }

  /** The piece sets key `k`. */
  predicate SetsKey(pair: string, k: string, parseDouble: DoubleParser)
  {
    var p := ParsePair(pair, parseDouble);
    p.Ok? && p.value.Some? && p.value.value.0 == k
  }

  /** Pieces that never set `k` leave its entry as it was. */
  lemma {:induction false} ParsePairsKeepsKey(acc: Json, pairs: seq<string>, k: string, parseDouble: DoubleParser)
    requires forall j :: 0 <= j < |pairs| ==> !SetsKey(pairs[j], k, parseDouble)
    requires ParsePairs(acc, pairs, parseDouble).Ok?
    ensures (k in acc) == (k in ParsePairs(acc, pairs, parseDouble).value)
    ensures k in acc ==> ParsePairs(acc, pairs, parseDouble).value[k] == acc[k]
    decreases |pairs|
  {
    if |pairs| > 0 {
      assert !SetsKey(pairs[0], k, parseDouble);
      forall j | 0 <= j < |pairs[1..]| ensures !SetsKey(pairs[1..][j], k, parseDouble) {
        assert pairs[1..][j] == pairs[j + 1];
      }
      match ParsePair(pairs[0], parseDouble)
      case Ok(None) => ParsePairsKeepsKey(acc, pairs[1..], k, parseDouble);
      case Ok(Some(kv)) => ParsePairsKeepsKey(acc[kv.0 := kv.1], pairs[1..], k, parseDouble);
    }
  }

  /** The pieces after the first that never set `k`, seen from the tail. */
  lemma NeverSetsInTail(pairs: seq<string>, i: nat, k: string, parseDouble: DoubleParser)
    requires 0 < |pairs|
    requires forall j :: i < j < |pairs| ==> !SetsKey(pairs[j], k, parseDouble)
    ensures forall j :: i <= j + 1 && j + 1 < |pairs| && j + 1 != i ==> !SetsKey(pairs[1..][j], k, parseDouble)
  {
    forall j | i <= j + 1 && j + 1 < |pairs| && j + 1 != i ensures !SetsKey(pairs[1..][j], k, parseDouble) {
      assert pairs[1..][j] == pairs[j + 1];
    }
  }

  /** Later pieces overwrite earlier ones: a key ends with the value of the
      last piece that sets it. */
  lemma {:induction false} ParsePairsLastWins(acc: Json, pairs: seq<string>, i: nat, k: string, v: JsonValue, parseDouble: DoubleParser)
    requires i < |pairs| && ParsePair(pairs[i], parseDouble) == Ok(Some((k, v)))
    requires forall j :: i < j < |pairs| ==> !SetsKey(pairs[j], k, parseDouble)
    requires ParsePairs(acc, pairs, parseDouble).Ok?
    ensures k in ParsePairs(acc, pairs, parseDouble).value
    ensures ParsePairs(acc, pairs, parseDouble).value[k] == v
    decreases |pairs|
  {
    NeverSetsInTail(pairs, i, k, parseDouble);
    if i == 0 {
      ParsePairsKeepsKey(acc[k := v], pairs[1..], k, parseDouble);
    } else {
      assert pairs[1..][i - 1] == pairs[i];
      var next := match ParsePair(pairs[0], parseDouble)
        case Ok(Some(kv)) => acc[kv.0 := kv.1]
        case _ => acc;
      assert ParsePairs(acc, pairs, parseDouble) == ParsePairs(next, pairs[1..], parseDouble);
      ParsePairsLastWins(next, pairs[1..], i - 1, k, v, parseDouble);
    }
  }

  /** Stripping the braces from "{}" leaves nothing. */
  lemma EmptyBracesStrip()
    ensures StripBraces("{}") == ""
  {
    TrimIdentity("{}");
  }

  /** Stripping an empty text leaves it empty. */
  lemma EmptyTextStrip()
    ensures StripBraces("") == ""
  {
    assert |StripBraces("")| <= |""|;
  }

  /** A blank piece has no ':' and is skipped. */
  lemma BlankPieceSkipped(parseDouble: DoubleParser)
    ensures ParsePairs(map[], [""], parseDouble) == Ok(map[])
  {
    assert JavaSplit("", ':') == [""];
    assert ParsePair("", parseDouble) == Ok(None);
    assert [""][1..] == [];
  }

  /** Nothing in the text but braces and blanks reads as the empty object. */
  lemma EmptyObject(parseDouble: DoubleParser)
    ensures ParseJson("{}", parseDouble) == Ok(map[])
    ensures ParseJson("", parseDouble) == Ok(map[])
  {
    EmptyBracesStrip();
    EmptyTextStrip();
    assert JavaSplit("", ',') == [""];
    BlankPieceSkipped(parseDouble);
  }

  // ------------------------------------------------------------ round trip

  /** One field of an object as a sender writes it. */
  datatype Field = Field(key: string, value: JsonValue)

  /** A number's text: `format` renders a number the way the page does, and
      the reader must be able to read it back. */
  predicate NumberTextOk(t: string, x: real, parseDouble: DoubleParser)
  {
    && |t| > 0 && !IsTrimmable(t[0]) && !IsTrimmable(t[|t| - 1]) && t[0] != '"'
    && ',' !in t && ':' !in t
    && parseDouble(t) == Some(x)
  }

  /** The fields the reader can carry: keys and strings free of the
      characters it splits on, and quote-free keys. */
  predicate FieldOk(f: Field, format: real -> string, parseDouble: DoubleParser)
  {
    && '"' !in f.key && ',' !in f.key && ':' !in f.key
    && match f.value
       case JString(s) => ',' !in s && ':' !in s
       case JNumber(x) => NumberTextOk(format(x), x, parseDouble)
  }

  function RenderValue(v: JsonValue, format: real -> string): string
  {
    match v
    case JString(s) => "\"" + s + "\""
    case JNumber(x) => format(x)
  }

  function RenderField(f: Field, format: real -> string): (r: string)
    ensures |r| > 0
  {
    "\"" + f.key + "\"" + ":" + RenderValue(f.value, format)
  }

  function RenderFields(fields: seq<Field>, format: real -> string): (r: seq<string>)
    ensures |r| == |fields|
    ensures forall i :: 0 <= i < |fields| ==> r[i] == RenderField(fields[i], format)
  {
    if |fields| == 0 then []
    else
      var rest := RenderFields(fields[1..], format);
      assert forall i :: 1 <= i < |fields| ==> fields[1..][i - 1] == fields[i];
      [RenderField(fields[0], format)] + rest
  }

  /** A JSON object written field by field, as the tuning page sends it. */
  function Render(fields: seq<Field>, format: real -> string): string
  {
    if |fields| == 0 then "{}" else "{" + Join(RenderFields(fields, format), ',') + "}"
  }

  /** The map the fields describe: later fields win. */
  function FieldsInto(acc: Json, fields: seq<Field>): (r: Json)
    decreases |fields|
  {
    if |fields| == 0 then acc else FieldsInto(acc[fields[0].key := fields[0].value], fields[1..])
  }

  /** A quoted key reads back as the key. */
  lemma QuotedKeyReadsBack(key: string)
    requires '"' !in key
    ensures RemoveAll(Trim("\"" + key + "\""), '"') == key
  {
    var q := "\"" + key + "\"";
    TrimIdentity(q);
    RemoveAllAppend("\"" + key, "\"", '"');
    RemoveAllAppend("\"", key, '"');
    RemoveAllAbsent(key, '"');
  }

  /** A rendered value reads back as itself. */
  lemma ValueReadsBack(v: JsonValue, format: real -> string, parseDouble: DoubleParser)
    requires v.JNumber? ==> NumberTextOk(format(v.x), v.x, parseDouble)
    ensures ParseValue(Trim(RenderValue(v, format)), parseDouble) == Ok(v)
  {
    var t := RenderValue(v, format);
    TrimIdentity(t);
    match v
    case JString(s) =>
      assert t[1..|t| - 1] == s;
    case JNumber(x) =>
      assert !StartsWith(t, '"');
  }

  /** A rendered field splits on ':' into its quoted key and its value. */
  lemma RenderedFieldSplits(f: Field, format: real -> string, parseDouble: DoubleParser)
    requires FieldOk(f, format, parseDouble)
    ensures JavaSplit(RenderField(f, format), ':') == ["\"" + f.key + "\"", RenderValue(f.value, format)]
  {
    var q := "\"" + f.key + "\"";
    var v := RenderValue(f.value, format);
    assert RenderField(f, format) == Join([q, v], ':');
    assert ':' !in q;
    assert ':' !in v && |v| > 0;
    JavaSplitJoin([q, v], ':');
  }

  /** A rendered field reads back as itself. */
  lemma ParsePairRendered(f: Field, format: real -> string, parseDouble: DoubleParser)
    requires FieldOk(f, format, parseDouble)
    ensures ParsePair(RenderField(f, format), parseDouble) == Ok(Some((f.key, f.value)))
  {
    RenderedFieldSplits(f, format, parseDouble);
    QuotedKeyReadsBack(f.key);
    ValueReadsBack(f.value, format, parseDouble);
  }

  /** No rendered field holds a comma. */
  lemma RenderedFieldHasNoComma(f: Field, format: real -> string, parseDouble: DoubleParser)
    requires FieldOk(f, format, parseDouble)
    ensures ',' !in RenderField(f, format)
  {
    var q := "\"" + f.key + "\"" + ":";
    assert ',' !in q;
    assert ',' !in RenderValue(f.value, format);
  }

  /** Reading rendered fields into a map gives the map the fields describe. */
  lemma {:induction false} ParsePairsRendered(acc: Json, fields: seq<Field>, format: real -> string, parseDouble: DoubleParser)
    requires forall i :: 0 <= i < |fields| ==> FieldOk(fields[i], format, parseDouble)
    ensures ParsePairs(acc, RenderFields(fields, format), parseDouble) == Ok(FieldsInto(acc, fields))
    decreases |fields|
  {
    if |fields| > 0 {
      ParsePairRendered(fields[0], format, parseDouble);
      assert RenderFields(fields, format)[1..] == RenderFields(fields[1..], format);
      ParsePairsRendered(acc[fields[0].key := fields[0].value], fields[1..], format, parseDouble);
    }
  }

  /** Braces around a body are stripped, and only they. */
  lemma StripWrapped(body: string)
    ensures StripBraces("{" + body + "}") == body
  {
    var text := "{" + body + "}";
    TrimIdentity(text);
    assert StartsWith(Trim(text), '{');
    var a := text[1..];
    assert a == body + "}";
    assert EndsWith(a, '}');
    assert a[..|a| - 1] == body;
  }

  /** The reader inverts the writer: any object of readable fields reads
      back as the map those fields describe. */
  lemma ParseJsonRoundTrip(fields: seq<Field>, format: real -> string, parseDouble: DoubleParser)
    requires forall i :: 0 <= i < |fields| ==> FieldOk(fields[i], format, parseDouble)
    ensures ParseJson(Render(fields, format), parseDouble) == Ok(FieldsInto(map[], fields))
  {
    if |fields| == 0 {
      EmptyObject(parseDouble);
    } else {
      var ps := RenderFields(fields, format);
      var body := Join(ps, ',');
      StripWrapped(body);
      forall i | 0 <= i < |ps| ensures ',' !in ps[i] {
        RenderedFieldHasNoComma(fields[i], format, parseDouble);
      }
      JavaSplitJoin(ps, ',');
      ParsePairsRendered(map[], fields, format, parseDouble);
    }
  }

  // ------------------------------------------------------------ the handler

  /** The server's state: both configurations and the update flag. */
  datatype Tuner = Tuner(drive: SwerveDrive.PidConfig, turn: SwerveDrive.PidConfig, hasUpdates: bool)

  function NewTuner(): (t: Tuner)
    ensures t.drive == SwerveDrive.DefaultDrivePid && t.turn == SwerveDrive.DefaultTurnPid && !t.hasUpdates
  {
    Tuner(SwerveDrive.DefaultDrivePid, SwerveDrive.DefaultTurnPid, false)
  }

  /** The replies of `/update`. */
  datatype Reply = MethodNotAllowed | Failed(fault: Fault) | InvalidType | Updated(pidType: string)

  function StatusCode(r: Reply): (code: int)
    ensures code == 200 <==> r.Updated?
    ensures code == 405 <==> r.MethodNotAllowed?
  {
    match r
    case MethodNotAllowed => 405
    case Failed(_) => 400
    case InvalidType => 400
    case Updated(_) => 200
  }

  /** `(String) data.get(key)`: absent is null; a number fails the cast. */
  function GetString(data: Json, key: string): (r: Result<Option<string>, Fault>)
  {
    if key !in data then Ok(None)
    else match data[key]
      case JString(s) => Ok(Some(s))
      case JNumber(_) => Err(ClassCast(key))
  }

  /** `((Number) data.get(key)).doubleValue()`: absent dereferences null;
      a string fails the cast. */
  function GetNumber(data: Json, key: string): (r: Result<real, Fault>)
    ensures r.Ok? <==> key in data && data[key].JNumber?
  {
    if key !in data then Err(NullPointer(key))
    else match data[key]
      case JNumber(x) => Ok(x)
      case JString(_) => Err(ClassCast(key))
  }

  /** The request fields in the order the handler reads them. */
  function ReadRequest(data: Json): (r: Result<(Option<string>, SwerveDrive.PidConfig), Fault>)
    ensures r.Ok? ==> forall k :: k in ["p", "i", "d", "f"] ==> k in data && data[k].JNumber?
  {
    match GetString(data, "type")
    case Err(e) => Err(e)
    case Ok(t) =>
      match GetNumber(data, "p")
      case Err(e) => Err(e)
      case Ok(p) =>
        match GetNumber(data, "i")
        case Err(e) => Err(e)
        case Ok(i) =>
          match GetNumber(data, "d")
          case Err(e) => Err(e)
          case Ok(d) =>
            match GetNumber(data, "f")
            case Err(e) => Err(e)
            case Ok(f) => Ok((t, SwerveDrive.PidConfig(p, i, d, f)))
  }

  /** `UpdateHandler.handle`. */
  function Handle(s: Tuner, verb: string, body: string, parseDouble: DoubleParser): (r: (Tuner, Reply))
    ensures verb != "POST" ==> r == (s, MethodNotAllowed)
    ensures !r.1.Updated? ==> r.0 == s
    ensures r.1.Updated? ==> r.0.hasUpdates && r.1.pidType in {"drive", "turn"}
    ensures r.1.Updated? && r.1.pidType == "drive" ==> r.0.turn == s.turn
    ensures r.1.Updated? && r.1.pidType == "turn" ==> r.0.drive == s.drive
  {
    if verb != "POST" then (s, MethodNotAllowed)
    else match ParseJson(body, parseDouble)
      case Err(e) => (s, Failed(e))
      case Ok(data) =>
        match ReadRequest(data)
        case Err(e) => (s, Failed(e))
        case Ok(req) =>
          if req.0 == Some("drive") then (s.(drive := req.1, hasUpdates := true), Updated("drive"))
          else if req.0 == Some("turn") then (s.(turn := req.1, hasUpdates := true), Updated("turn"))
          else (s, InvalidType)
  }

  /** `hasUpdates`: report the flag and clear it. */
  function HasUpdates(s: Tuner): (r: (bool, Tuner))
    ensures r.0 == s.hasUpdates && !r.1.hasUpdates
    ensures r.1.drive == s.drive && r.1.turn == s.turn
  {
    (s.hasUpdates, s.(hasUpdates := false))
  }

  /** After an update, the robot's next poll sees it and the one after does
      not. */
  lemma UpdateSeenOnce(s: Tuner, body: string, parseDouble: DoubleParser)
    requires Handle(s, "POST", body, parseDouble).1.Updated?
    ensures HasUpdates(Handle(s, "POST", body, parseDouble).0).0
    ensures !HasUpdates(HasUpdates(Handle(s, "POST", body, parseDouble).0).1).0
  {
  }

  /** The request the tuning page sends for one configuration. */
  function PageRequest(pidType: string, c: SwerveDrive.PidConfig): seq<Field>
  {
    [Field("type", JString(pidType)), Field("p", JNumber(c.kP)), Field("i", JNumber(c.kI)),
     Field("d", JNumber(c.kD)), Field("f", JNumber(c.kF))]
  }

  /** The page's fields describe one entry per key. */
  lemma PageRequestMap(pidType: string, c: SwerveDrive.PidConfig)
    ensures FieldsInto(map[], PageRequest(pidType, c)) ==
      map["type" := JString(pidType), "p" := JNumber(c.kP), "i" := JNumber(c.kI),
          "d" := JNumber(c.kD), "f" := JNumber(c.kF)]
  {
    var fs := PageRequest(pidType, c);
    var m1 := map["type" := JString(pidType)];
    var m2 := m1["p" := JNumber(c.kP)];
    var m3 := m2["i" := JNumber(c.kI)];
    var m4 := m3["d" := JNumber(c.kD)];
    var m5 := m4["f" := JNumber(c.kF)];
    assert fs[1..][1..][1..][1..][1..] == [];
    assert FieldsInto(m5, fs[1..][1..][1..][1..][1..]) == m5;
    assert FieldsInto(map[], fs) == FieldsInto(m1, fs[1..]) == FieldsInto(m2, fs[1..][1..])
      == FieldsInto(m3, fs[1..][1..][1..]) == FieldsInto(m4, fs[1..][1..][1..][1..]);
  }

  lemma PageRequestFieldsOk(pidType: string, c: SwerveDrive.PidConfig, format: real -> string, parseDouble: DoubleParser)
    requires pidType in {"drive", "turn"}
    requires forall x :: x in [c.kP, c.kI, c.kD, c.kF] ==> NumberTextOk(format(x), x, parseDouble)
    ensures forall i :: 0 <= i < |PageRequest(pidType, c)| ==> FieldOk(PageRequest(pidType, c)[i], format, parseDouble)
  {
    var xs := [c.kP, c.kI, c.kD, c.kF];
    assert xs[0] in xs && xs[1] in xs && xs[2] in xs && xs[3] in xs;
  }

  /** End to end: the page's request for the drive or turn loop replaces
      exactly that configuration with the four values sent. */
  lemma PageRequestUpdates(s: Tuner, pidType: string, c: SwerveDrive.PidConfig, format: real -> string, parseDouble: DoubleParser)
    requires pidType in {"drive", "turn"}
    requires forall x :: x in [c.kP, c.kI, c.kD, c.kF] ==> NumberTextOk(format(x), x, parseDouble)
    ensures var r := Handle(s, "POST", Render(PageRequest(pidType, c), format), parseDouble);
      && r.1 == Updated(pidType)
      && (pidType == "drive" ==> r.0 == Tuner(c, s.turn, true))
      && (pidType == "turn" ==> r.0 == Tuner(s.drive, c, true))
  {
    var fields := PageRequest(pidType, c);
    PageRequestFieldsOk(pidType, c, format, parseDouble);
    ParseJsonRoundTrip(fields, format, parseDouble);
    PageRequestMap(pidType, c);
    var body := Render(fields, format);
    var data := FieldsInto(map[], fields);
    assert ParseJson(body, parseDouble) == Ok(data);
    ReadPageRequest(pidType, c);
    ValidRequestUpdates(s, body, parseDouble, data, pidType, c);
  }

  /** A body that parses to a request for the drive or turn loop replaces
      exactly that configuration and raises the update flag. */
  lemma ValidRequestUpdates(s: Tuner, body: string, parseDouble: DoubleParser, data: Json,
                            pidType: string, c: SwerveDrive.PidConfig)
    requires pidType in {"drive", "turn"}
    requires ParseJson(body, parseDouble) == Ok(data)
    requires ReadRequest(data) == Ok((Some(pidType), c))
    ensures var r := Handle(s, "POST", body, parseDouble);
      && r.1 == Updated(pidType)
      && (pidType == "drive" ==> r.0 == Tuner(c, s.turn, true))
      && (pidType == "turn" ==> r.0 == Tuner(s.drive, c, true))
  {
  }

  /** The page's entries read back as the type and the four gains sent. */
  lemma ReadPageRequest(pidType: string, c: SwerveDrive.PidConfig)
    ensures ReadRequest(FieldsInto(map[], PageRequest(pidType, c))) == Ok((Some(pidType), c))
  {
    PageRequestMap(pidType, c);
  }

  /** Any type other than "drive" or "turn" is refused and changes nothing,
      the update flag included. */
  lemma InvalidTypeChangesNothing(s: Tuner, body: string, parseDouble: DoubleParser, data: Json)
    requires ParseJson(body, parseDouble) == Ok(data)
    requires ReadRequest(data).Ok? && ReadRequest(data).value.0 !in {Some("drive"), Some("turn")}
    ensures Handle(s, "POST", body, parseDouble) == (s, InvalidType)
  {
  }
}
