/** The properties web page: request dispatch, the class chosen by a GET
    query, the editable field types and their log line, and a POST form's
    parsing and application. Reflection is replaced by an explicit
    description of the classes on the robot; URL decoding is a parameter. */
module PropertiesHttp {
  import opened Wrappers
  import opened JavaText
  import ReconfigurableConfig

  const DefaultClassName: string := "frc.robot.subsystems.climber.Climber"

  /** `URLDecoder.decode`, given as a parameter: `None` where it throws on
      a malformed escape. */
  type Decoder = string -> Option<string>

  // ------------------------------------------------------------ dispatch

  datatype Route = FormPage | Update | MethodNotAllowed

  /** `handle`: GET shows the form, POST applies it, anything else is 405;
      the method name is compared ignoring case. */
  function Dispatch(verb: string): (r: Route)
    ensures r == FormPage <==> EqualsIgnoreCase("GET", verb)
    ensures r == Update <==> !EqualsIgnoreCase("GET", verb) && EqualsIgnoreCase("POST", verb)
  {
    if EqualsIgnoreCase("GET", verb) then FormPage
    else if EqualsIgnoreCase("POST", verb) then Update
    else MethodNotAllowed
  }

  function RouteStatus(r: Route): int
  {
    if r == MethodNotAllowed then 405 else 200
  }

  /** Upper, lower and mixed spellings all route the same way. */
  lemma DispatchIgnoresCase()
    ensures Dispatch("GET") == Dispatch("get") == Dispatch("Get") == FormPage
    ensures Dispatch("POST") == Dispatch("post") == Update
    ensures Dispatch("PUT") == MethodNotAllowed && RouteStatus(Dispatch("DELETE")) == 405
  {
    assert !EqualsIgnoreCase("GET", "POST") && !EqualsIgnoreCase("GET", "post") by {
      assert AsciiLower("GET"[0]) != AsciiLower("POST"[0]);
    }
    assert !EqualsIgnoreCase("GET", "PUT") && !EqualsIgnoreCase("POST", "PUT") by {
      assert AsciiLower("GET"[0]) != AsciiLower("PUT"[0]);
      assert AsciiLower("POST"[1]) != AsciiLower("PUT"[1]);
    }
    assert !EqualsIgnoreCase("GET", "DELETE") && !EqualsIgnoreCase("POST", "DELETE");
  }

  // ------------------------------------------------------------ GET query

  /** The value of the first `className=value` parameter, decoded; `None`
      when no parameter qualifies. A parameter qualifies only if it splits
      on '=' into exactly two parts. */
  function FirstClassNameParam(params: seq<string>, decode: Decoder): (r: Option<Option<string>>)
    ensures r.None? ==> forall i :: 0 <= i < |params| ==> !(|JavaSplit(params[i], '=')| == 2 && JavaSplit(params[i], '=')[0] == "className")
    decreases |params|
  {
    if |params| == 0 then None
    else
      var kv := JavaSplit(params[0], '=');
      if |kv| == 2 && kv[0] == "className" then Some(decode(kv[1]))
      else FirstClassNameParam(params[1..], decode)
  }

  /** `getClassNameFromQuery`: the requested class if registered, the
      default otherwise (a missing query, no usable parameter, or a
      decoding failure — which Java throws as an exception). */
  function ClassNameFromQuery(registry: seq<string>, query: Option<string>, decode: Decoder): (r: Result<string, string>)
    ensures r.Ok? ==> ReconfigurableConfig.IsRegistered(registry, r.value) || r.value == DefaultClassName
    ensures query.None? ==> r == Ok(DefaultClassName)
  {
    if query.None? then Ok(DefaultClassName)
    else match FirstClassNameParam(JavaSplit(query.value, '&'), decode)
      case None => Ok(DefaultClassName)
      case Some(None) => Err("IllegalArgumentException")
      case Some(Some(name)) =>
        if ReconfigurableConfig.IsRegistered(registry, name) then Ok(name) else Ok(DefaultClassName)
  }

  /** A `className=v` parameter with a plain value splits into the key and
      the value, and holds no parameter separator. */
  lemma ClassNameParam(v: string)
    requires '&' !in v && '=' !in v && |v| > 0
    ensures '&' !in "className=" + v
    ensures JavaSplit("className=" + v, '=') == ["className", v]
  {
    var q := "className=" + v;
    assert q == Join(["className", v], '=');
    JavaSplitJoin(["className", v], '=');
    assert '&' !in "className=";
  }

  /** A query naming a registered class selects it. */
  lemma QuerySelectsRegisteredClass(registry: seq<string>, encoded: string, decode: Decoder)
    requires '&' !in encoded && '=' !in encoded && |encoded| > 0
    requires decode(encoded).Some? && ReconfigurableConfig.IsRegistered(registry, decode(encoded).value)
    ensures ClassNameFromQuery(registry, Some("className=" + encoded), decode) == Ok(decode(encoded).value)
  {
    ClassNameParam(encoded);
  }

  /** A two-parameter query is the two parameters joined by '&'. */
  lemma TwoParameters(first: string, second: string)
    ensures "className=" + first + "&className=" + second
         == Join(["className=" + first, "className=" + second], '&')
  {
    var p1, p2 := "className=" + first, "className=" + second;
    assert [p1, p2][1..] == [p2];
    assert "&className=" + second == ['&'] + p2;
  }

  /** Only the first qualifying parameter counts: an unregistered first
      choice falls back to the default even when a later one is registered. */
  lemma OnlyFirstParameterCounts(registry: seq<string>, first: string, second: string, decode: Decoder)
    requires '&' !in first && '=' !in first && |first| > 0
    requires '&' !in second && '=' !in second && |second| > 0
    requires decode(first).Some? && !ReconfigurableConfig.IsRegistered(registry, decode(first).value)
    ensures ClassNameFromQuery(registry, Some("className=" + first + "&className=" + second), decode) == Ok(DefaultClassName)
  {
    var p1, p2 := "className=" + first, "className=" + second;
    ClassNameParam(first);
    ClassNameParam(second);
    TwoParameters(first, second);
    JavaSplitJoin([p1, p2], '&');
  }

  // ------------------------------------------------------------ field types

  /** A static field's declared type. */
  datatype FieldType = IntType | DoubleType | BooleanType | StringType | OtherType(name: string)

  /** The names `Class.getName` gives the four editable types. */
  const EditableTypeNames: set<string> := {"int", "double", "boolean", "java.lang.String"}

  /** No other class carries one of those names: three are primitive
      keywords, and `java.lang.String` is the one bootstrap class. */
  predicate WellNamed(t: FieldType)
  {
    t.OtherType? ==> t.name !in EditableTypeNames
  }

  /** `Class.getName` for the field's type. */
  function TypeName(t: FieldType): (r: string)
    ensures !t.OtherType? ==> r in EditableTypeNames
    ensures t.OtherType? ==> r == t.name
  {
    match t
    case IntType => "int"
    case DoubleType => "double"
    case BooleanType => "boolean"
    case StringType => "java.lang.String"
    case OtherType(n) => n
  }

  /** `isEditableType`: the field's class is one of int, double, boolean and
      String, compared by identity; on well-named types, exactly the types
      whose name is one of the four editable names. */
  function IsEditableType(t: FieldType): (r: bool)
    ensures r ==> TypeName(t) in EditableTypeNames
    ensures WellNamed(t) ==> (r <==> TypeName(t) in EditableTypeNames)
  {
    t == IntType || t == DoubleType || t == BooleanType || t == StringType
  }

  /** Distinct editable types have distinct names, so the log line's type
      name identifies the type. */
  lemma EditableNamesDistinct(a: FieldType, b: FieldType)
    requires IsEditableType(a) && IsEditableType(b) && TypeName(a) == TypeName(b)
    ensures a == b
  {
  }

  /** `logField`: one Java declaration line — the prefix, the type name, a
      space, the field name, " = ", the value and "; \n", each at its own
      place in the line. */
  function LogField(name: string, value: string, t: FieldType): (r: string)
    ensures |r| == 14 + |TypeName(t)| + 1 + |name| + 3 + |value| + 3
    ensures r[..14] == "public static "
    ensures r[14..14 + |TypeName(t)|] == TypeName(t)
    ensures r[14 + |TypeName(t)|] == ' '
    ensures r[15 + |TypeName(t)|..15 + |TypeName(t)| + |name|] == name
    ensures r[15 + |TypeName(t)| + |name|..18 + |TypeName(t)| + |name|] == " = "
    ensures r[18 + |TypeName(t)| + |name|..|r| - 3] == value
    ensures r[|r| - 3..] == "; \n"
  {
    var tn := TypeName(t);
    var r := "public static " + tn + " " + name + " = " + value + "; \n";
    MiddleSlice("public static ", tn, " " + name + " = " + value + "; \n");
    MiddleSlice("public static " + tn + " ", name, " = " + value + "; \n");
    MiddleSlice("public static " + tn + " " + name, " = ", value + "; \n");
    MiddleSlice("public static " + tn + " " + name + " = ", value, "; \n");
    r
  }

  /** The middle of a three-part concatenation sits between the other two. */
  lemma MiddleSlice(x: string, y: string, z: string)
    ensures (x + y + z)[|x|..|x| + |y|] == y
    ensures (x + (y + z)) == x + y + z
  {
  }

  // ------------------------------------------------------------ POST form

  datatype FormFault =
    | DecodeFailure
    | DuplicateKey(key: string)
    | NoClassName
    | ClassNotFound(name: string)
    | NoDefaultConstructor(name: string)

  /** A form piece decodes when its key, and its value if it has one, do. */
  predicate PieceDecodes(piece: string, decode: Decoder)
  {
    var kv := JavaSplitFirst(piece, '=');
    decode(kv[0]).Some? && (|kv| > 1 ==> decode(kv[1]).Some?)
  }

  /** One piece split at its first '=', both halves decoded; no '=' at all
      gives the empty value. */
  function PiecePair(piece: string, decode: Decoder): (string, string)
    requires PieceDecodes(piece, decode)
  {
    var kv := JavaSplitFirst(piece, '=');
    (decode(kv[0]).value, if |kv| > 1 then decode(kv[1]).value else "")
  }

  /** The keys and values of a form body, in body order; one undecodable
      piece fails the whole form. */
  function FormPairs(pieces: seq<string>, decode: Decoder): (r: Result<seq<(string, string)>, FormFault>)
    ensures r.Ok? <==> forall i :: 0 <= i < |pieces| ==> PieceDecodes(pieces[i], decode)
    ensures r.Ok? ==> |r.value| == |pieces|
    ensures r.Ok? ==> forall i :: 0 <= i < |pieces| ==> r.value[i] == PiecePair(pieces[i], decode)
    ensures r.Err? ==> r.error == DecodeFailure
    decreases |pieces|
  {
    if |pieces| == 0 then Ok([])
    else if !PieceDecodes(pieces[0], decode) then Err(DecodeFailure)
    else
      var rest := FormPairs(pieces[1..], decode);
      assert forall i :: 1 <= i < |pieces| ==> pieces[1..][i - 1] == pieces[i];
      match rest
      case Err(e) => Err(e)
      case Ok(tail) => Ok([PiecePair(pieces[0], decode)] + tail)
  }

  /** `Collectors.toMap`: a repeated key throws. */
  function CollectToMap(pairs: seq<(string, string)>): (r: Result<map<string, string>, FormFault>)
    ensures r.Ok? ==> forall i :: 0 <= i < |pairs| ==> pairs[i].0 in r.value && r.value[pairs[i].0] == pairs[i].1
    ensures r.Ok? ==> forall k :: k in r.value ==> exists i :: 0 <= i < |pairs| && pairs[i].0 == k
    ensures r.Err? ==> r.error.DuplicateKey?
    decreases |pairs|
  {
    if |pairs| == 0 then Ok(map[])
    else match CollectToMap(pairs[1..])
      case Err(e) => Err(e)
      case Ok(m) =>
        if pairs[0].0 in m then Err(DuplicateKey(pairs[0].0))
        else
          var r := m[pairs[0].0 := pairs[0].1];
          assert forall k :: k in r ==> exists i :: 0 <= i < |pairs| && pairs[i].0 == k by {
            forall k | k in r ensures exists i :: 0 <= i < |pairs| && pairs[i].0 == k {
              if k != pairs[0].0 {
                var j :| 0 <= j < |pairs[1..]| && pairs[1..][j].0 == k;
                assert pairs[j + 1].0 == k;
              }
            }
          }
          Ok(r)
  }

  /** The form body as a map: split on '&', each piece at its first '=',
      both halves decoded, a piece without '=' having the empty value. */
  function FormData(body: string, decode: Decoder): (r: Result<map<string, string>, FormFault>)
    ensures (exists i :: 0 <= i < |JavaSplit(body, '&')| && !PieceDecodes(JavaSplit(body, '&')[i], decode))
      ==> r == Err(DecodeFailure)
    ensures r.Ok? ==> forall i :: 0 <= i < |JavaSplit(body, '&')| ==>
      PieceDecodes(JavaSplit(body, '&')[i], decode)
      && PiecePair(JavaSplit(body, '&')[i], decode).0 in r.value
      && r.value[PiecePair(JavaSplit(body, '&')[i], decode).0] == PiecePair(JavaSplit(body, '&')[i], decode).1
    ensures r.Ok? ==> forall k :: k in r.value ==>
      exists i :: 0 <= i < |JavaSplit(body, '&')| && PieceDecodes(JavaSplit(body, '&')[i], decode)
        && PiecePair(JavaSplit(body, '&')[i], decode).0 == k
  {
    match FormPairs(JavaSplit(body, '&'), decode)
    case Err(e) => Err(e)
    case Ok(pairs) => CollectToMap(pairs)
  }

  /** A repeated key makes the whole form fail. */
  lemma RepeatedKeyFails(pairs: seq<(string, string)>, i: nat, j: nat)
    requires i < j < |pairs| && pairs[i].0 == pairs[j].0
    ensures CollectToMap(pairs).Err?
  {
    if CollectToMap(pairs).Ok? {
      assert pairs[i].1 == CollectToMap(pairs).value[pairs[i].0] == pairs[j].1;
      CollectRepeated(pairs, i, j);
    }
  }

  lemma {:induction false} CollectRepeated(pairs: seq<(string, string)>, i: nat, j: nat)
    requires i < j < |pairs| && pairs[i].0 == pairs[j].0
    ensures CollectToMap(pairs).Err?
    decreases |pairs|
  {
    if i == 0 {
      match CollectToMap(pairs[1..])
      case Err(_) =>
      case Ok(m) =>
        assert pairs[1..][j - 1].0 == pairs[0].0;
    } else {
      CollectRepeated(pairs[1..], i - 1, j - 1);
    }
  }

  /** One written form entry `key=value`. */
  function Entry(kv: (string, string)): string
  {
    kv.0 + "=" + kv.1
  }

  function Entries(pairs: seq<(string, string)>): (r: seq<string>)
    ensures |r| == |pairs| && forall i :: 0 <= i < |pairs| ==> r[i] == Entry(pairs[i])
  {
    if |pairs| == 0 then [] else [Entry(pairs[0])] + Entries(pairs[1..])
  }

  /** Keys and values already encoded: no separator where it would cut
      an entry, and both halves decodable. */
  predicate AllEncodedOk(pairs: seq<(string, string)>, decode: Decoder)
  {
    forall i :: 0 <= i < |pairs| ==>
      ('&' !in pairs[i].0 && '=' !in pairs[i].0 && '&' !in pairs[i].1
       && decode(pairs[i].0).Some? && decode(pairs[i].1).Some?)
  }

  /** The decoded keys and values, in order. */
  function DecodedPairs(pairs: seq<(string, string)>, decode: Decoder): (r: seq<(string, string)>)
    requires AllEncodedOk(pairs, decode)
    ensures |r| == |pairs|
    ensures forall i :: 0 <= i < |pairs| ==> r[i] == (decode(pairs[i].0).value, decode(pairs[i].1).value)
  {
    if |pairs| == 0 then []
    else [(decode(pairs[0].0).value, decode(pairs[0].1).value)] + DecodedPairs(pairs[1..], decode)
  }

  lemma {:induction false} FormPairsOfEntries(pairs: seq<(string, string)>, decode: Decoder)
    requires AllEncodedOk(pairs, decode)
    ensures FormPairs(Entries(pairs), decode) == Ok(DecodedPairs(pairs, decode))
    decreases |pairs|
  {
    if |pairs| > 0 {
      JavaSplitFirstAt(pairs[0].0, pairs[0].1, '=');
      assert Entries(pairs)[1..] == Entries(pairs[1..]);
      FormPairsOfEntries(pairs[1..], decode);
    }
  }

  /** A form written from distinct keys reads back as the map of the
      decoded keys and values. */
  lemma FormDataRoundTrip(pairs: seq<(string, string)>, decode: Decoder)
    requires |pairs| > 0
    requires AllEncodedOk(pairs, decode)
    requires forall i, j :: 0 <= i < j < |pairs| ==> decode(pairs[i].0) != decode(pairs[j].0)
    ensures FormData(Join(Entries(pairs), '&'), decode) == CollectToMap(DecodedPairs(pairs, decode))
    ensures CollectToMap(DecodedPairs(pairs, decode)).Ok?
  {
    var es := Entries(pairs);
    forall i | 0 <= i < |es| ensures '&' !in es[i] {
      assert es[i] == pairs[i].0 + "=" + pairs[i].1;
    }
    assert es[|es| - 1] != "" by { assert |Entry(pairs[|pairs| - 1])| > 0; }
    JavaSplitJoin(es, '&');
    FormPairsOfEntries(pairs, decode);
    var decoded := DecodedPairs(pairs, decode);
    if CollectToMap(decoded).Err? {
      CollectErrHasRepeat(decoded);
    }
  }

  /** A failed collection always has a repeated key behind it. */
  lemma {:induction false} CollectErrHasRepeat(pairs: seq<(string, string)>)
    requires CollectToMap(pairs).Err?
    ensures exists i, j :: 0 <= i < j < |pairs| && pairs[i].0 == pairs[j].0
    decreases |pairs|
  {
    match CollectToMap(pairs[1..])
    case Err(_) =>
      CollectErrHasRepeat(pairs[1..]);
      var i, j :| 0 <= i < j < |pairs[1..]| && pairs[1..][i].0 == pairs[1..][j].0;
      assert pairs[i + 1].0 == pairs[j + 1].0;
    case Ok(m) =>
      var k :| 0 <= k < |pairs[1..]| && pairs[1..][k].0 == pairs[0].0;
      assert pairs[k + 1].0 == pairs[0].0;
  }

  // ------------------------------------------------------------ applying it

  /** What reflection would find on the robot. */
  datatype ClassEnv = ClassEnv(loadable: set<string>, reconfigurable: set<string>, constructible: set<string>)

  /** What one application of the form does to the robot. */
  datatype FormEffect = SetField(key: string, value: string) | Reconfigure(className: string)

  /** The iteration order of a map's keys: each key exactly once. */
  predicate IsKeyOrder(order: seq<string>, m: map<string, string>)
  {
    && |order| == |m.Keys|
    && (forall k :: k in m ==> k in order)
    && (forall i :: 0 <= i < |order| ==> order[i] in m)
    && (forall i, j :: 0 <= i < j < |order| ==> order[i] != order[j])
  }

  /** The per-key loop: `className` is remembered; any other key is an
      attempt to set that field (its own failures are swallowed); then, for a
      reconfigurable class, a fresh instance is reconfigured — a class with
      no usable constructor aborts the loop. */
  function ApplyKeys(form: map<string, string>, keys: seq<string>, cls: string, env: ClassEnv, className: string): (r: (seq<FormEffect>, Result<string, FormFault>))
    requires forall k :: k in keys ==> k in form
    ensures cls in env.reconfigurable && cls in env.constructible ==> r.1.Ok?
    ensures cls !in env.reconfigurable ==> forall e :: e in r.0 ==> e.SetField?
    ensures forall e :: e in r.0 && e.SetField? ==>
      e.key in keys && e.key != "className" && e.value == form[e.key]
    ensures r.1.Ok? ==> forall k :: k in keys && k != "className" ==> SetField(k, form[k]) in r.0
    ensures cls !in env.reconfigurable ==> r.1.Ok?
    ensures cls in env.reconfigurable && cls !in env.constructible ==> |r.0| <= 1
    ensures cls in env.reconfigurable && cls !in env.constructible && |keys| > 0 ==>
      r.1 == Err(NoDefaultConstructor(cls))
      && r.0 == (if keys[0] == "className" then [] else [SetField(keys[0], form[keys[0]])])
    decreases |keys|
  {
    if |keys| == 0 then ([], Ok(className))
    else
      var key := keys[0];
      var name := if key == "className" then form[key] else className;
      var sets := if key == "className" then [] else [SetField(key, form[key])];
      if cls in env.reconfigurable then
        if cls !in env.constructible then (sets, Err(NoDefaultConstructor(cls)))
        else
          var rest := ApplyKeys(form, keys[1..], cls, env, name);
          (sets + [Reconfigure(cls)] + rest.0, rest.1)
      else
        var rest := ApplyKeys(form, keys[1..], cls, env, name);
        (sets + rest.0, rest.1)
  }

  function CountReconfigures(es: seq<FormEffect>): (n: nat)
    ensures n <= |es|
  {
    if |es| == 0 then 0 else (if es[0].Reconfigure? then 1 else 0) + CountReconfigures(es[1..])
  }

  lemma {:induction false} CountReconfiguresAppend(a: seq<FormEffect>, b: seq<FormEffect>)
    ensures CountReconfigures(a + b) == CountReconfigures(a) + CountReconfigures(b)
    decreases |a|
  {
    if |a| == 0 {
      assert a + b == b;
    } else {
      assert (a + b)[1..] == a[1..] + b;
      CountReconfiguresAppend(a[1..], b);
    }
  }

  /** `reconfigure` runs once per form key, not once per request. */
  lemma {:induction false} ReconfigureOncePerKey(form: map<string, string>, keys: seq<string>, cls: string, env: ClassEnv, className: string)
    requires forall k :: k in keys ==> k in form
    requires cls in env.reconfigurable && cls in env.constructible
    ensures CountReconfigures(ApplyKeys(form, keys, cls, env, className).0) == |keys|
    decreases |keys|
  {
    if |keys| > 0 {
      var key := keys[0];
      var name := if key == "className" then form[key] else className;
      var sets: seq<FormEffect> := if key == "className" then [] else [SetField(key, form[key])];
      var rest := ApplyKeys(form, keys[1..], cls, env, name);
      ReconfigureOncePerKey(form, keys[1..], cls, env, name);
      CountReconfiguresAppend(sets + [Reconfigure(cls)], rest.0);
      CountReconfiguresAppend(sets, [Reconfigure(cls)]);
    }
  }

  /** `updateConfigFromFormData`: parse the form, load the class it names
      (any class on the robot, registered or not), then run the loop. */
  function UpdateConfigFromFormData(body: string, decode: Decoder, order: seq<string>, env: ClassEnv): (r: (seq<FormEffect>, Result<string, FormFault>))
    requires FormData(body, decode).Ok? ==> IsKeyOrder(order, FormData(body, decode).value)
    ensures FormData(body, decode).Err? ==> r.0 == [] && r.1.Err?
    ensures r.1.Ok? ==> (FormData(body, decode).Ok? && "className" in FormData(body, decode).value
      && FormData(body, decode).value["className"] in env.loadable)
    ensures FormData(body, decode).Ok? && "className" !in FormData(body, decode).value ==>
      r.0 == [] && r.1 == Err(NoClassName)
    ensures (FormData(body, decode).Ok? && "className" in FormData(body, decode).value
      && FormData(body, decode).value["className"] !in env.loadable) ==>
      r.0 == [] && r.1 == Err(ClassNotFound(FormData(body, decode).value["className"]))
    ensures r.1.Ok? ==> forall k :: k in FormData(body, decode).value && k != "className" ==>
      SetField(k, FormData(body, decode).value[k]) in r.0
    ensures var fd := FormData(body, decode);
      fd.Ok? && "className" in fd.value && fd.value["className"] in env.loadable ==>
      (r.1.Ok? <==> fd.value["className"] !in env.reconfigurable || fd.value["className"] in env.constructible)
    ensures var fd := FormData(body, decode);
      fd.Ok? && "className" in fd.value && fd.value["className"] in env.reconfigurable
      && fd.value["className"] !in env.constructible ==>
      |r.0| <= 1
  {
    match FormData(body, decode)
    case Err(e) => ([], Err(e))
    case Ok(form) =>
      if "className" !in form then ([], Err(NoClassName))
      else if form["className"] !in env.loadable then ([], Err(ClassNotFound(form["className"])))
      else ApplyKeys(form, order, form["className"], env, "")
  }

  /** The loop returns the form's class name whenever it completes. */
  lemma {:induction false} ApplyKeysReturnsClassName(form: map<string, string>, keys: seq<string>, cls: string, env: ClassEnv, className: string)
    requires forall k :: k in keys ==> k in form
    requires forall i, j :: 0 <= i < j < |keys| ==> keys[i] != keys[j]
    requires ApplyKeys(form, keys, cls, env, className).1.Ok?
    ensures ApplyKeys(form, keys, cls, env, className).1.value ==
      (if "className" in keys then form["className"] else className)
    decreases |keys|
  {
    if |keys| > 0 {
      var key := keys[0];
      var name := if key == "className" then form[key] else className;
      assert forall i, j :: 0 <= i < j < |keys[1..]| ==> keys[1..][i] != keys[1..][j] by {
        forall i, j | 0 <= i < j < |keys[1..]| ensures keys[1..][i] != keys[1..][j] {
          assert keys[1..][i] == keys[i + 1] && keys[1..][j] == keys[j + 1];
        }
      }
      ApplyKeysReturnsClassName(form, keys[1..], cls, env, name);
      if key == "className" {
        assert "className" !in keys[1..] by {
          forall i | 0 <= i < |keys[1..]| ensures keys[1..][i] != "className" {
            assert keys[1..][i] == keys[i + 1];
          }
        }
      }
      assert "className" in keys <==> key == "className" || "className" in keys[1..];
    }
  }

  /** The POST reply: always 200 with the success page, which links back to
      the class the form named — or to the empty name after any exception. */
  datatype PostReply = PostReply(status: int, backLink: string)

  function HandlePost(body: string, decode: Decoder, order: seq<string>, env: ClassEnv): (r: (seq<FormEffect>, PostReply))
    requires FormData(body, decode).Ok? ==> IsKeyOrder(order, FormData(body, decode).value)
    ensures r.1.status == 200
    ensures UpdateConfigFromFormData(body, decode, order, env).1.Err? ==> r.1.backLink == ""
  {
    var u := UpdateConfigFromFormData(body, decode, order, env);
    (u.0, PostReply(200, if u.1.Ok? then u.1.value else ""))
  }

  /** A completed update links back to the class the form named. */
  lemma PostLinksBackToFormClass(body: string, decode: Decoder, order: seq<string>, env: ClassEnv)
    requires FormData(body, decode).Ok? ==> IsKeyOrder(order, FormData(body, decode).value)
    requires UpdateConfigFromFormData(body, decode, order, env).1.Ok?
    ensures HandlePost(body, decode, order, env).1.backLink == FormData(body, decode).value["className"]
  {
    var form := FormData(body, decode).value;
    ApplyKeysReturnsClassName(form, order, form["className"], env, "");
  }
}
