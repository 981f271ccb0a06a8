/** The request and response helpers of the web API handlers. */
module Api {
  import opened Text
  import opened Config

  type Headers = map<string, string>

  /** The headers every response carries unless the caller overrides them. */
  const DefaultHeaders: Headers := map[
    "Content-Type" := "application/json",
    "Access-Control-Allow-Origin" := "*",
    "Access-Control-Allow-Credentials" := "true"]

  /** An API Gateway response. `body` is the dictionary that `json.dumps`
      serialises. */
  datatype Response = Response(statusCode: int, headers: Headers, body: Value)

  /** The default headers updated with the caller's own. */
  function WithHeaders(extra: Option<Headers>): (h: Headers)
    ensures h.Keys == DefaultHeaders.Keys + (if extra.Some? then extra.value.Keys else {})
    ensures extra.Some? ==> forall k :: k in extra.value ==> h[k] == extra.value[k]
    ensures forall k :: k in DefaultHeaders && (extra.None? || k !in extra.value) ==> h[k] == DefaultHeaders[k]
  {
    if extra.Some? && extra.value != map[] then DefaultHeaders + extra.value else DefaultHeaders
  }

  /** `success_response(body, status_code, headers)`. */
  function SuccessResponse(body: Value, statusCode: int, headers: Option<Headers>): Response
  {
    Response(statusCode, WithHeaders(headers), body)
  }

  /** The body of an error response: the message and status, and the
      error code when one is given. */
  function ErrorBody(message: string, statusCode: int, errorCode: Option<string>): Value
  {
    var body := map["error" := Str(message), "status" := Int(statusCode)];
    if errorCode.Some? && errorCode.value != [] then Dict(body["code" := Str(errorCode.value)]) else Dict(body)
  }

  /** `error_response(message, status_code, error_code, headers)`. */
  function ErrorResponse(message: string, statusCode: int, errorCode: Option<string>,
                         headers: Option<Headers>): Response
  {
    Response(statusCode, WithHeaders(headers), ErrorBody(message, statusCode, errorCode))
  }

  /** Both responses carry the given status code and the default headers
      overridden by the caller's; a success carries the body unchanged, an
      error carries its message and status, and a `code` entry exactly
      when a non-empty error code is given. */
  lemma ResponsesSpec(body: Value, message: string, statusCode: int, errorCode: Option<string>,
                      headers: Option<Headers>)
    ensures var s := SuccessResponse(body, statusCode, headers);
            s.statusCode == statusCode && s.body == body && s.headers == WithHeaders(headers)
    ensures var e := ErrorResponse(message, statusCode, errorCode, headers);
            && e.statusCode == statusCode && e.headers == WithHeaders(headers)
            && e.body.Dict?
            && "error" in e.body.entries && e.body.entries["error"] == Str(message)
            && "status" in e.body.entries && e.body.entries["status"] == Int(statusCode)
            && ("code" in e.body.entries <==> errorCode.Some? && errorCode.value != [])
            && ("code" in e.body.entries ==> e.body.entries["code"] == Str(errorCode.value))
            && e.body.entries.Keys <= {"error", "status", "code"}
  {
  }

  // ---------------------------------------------------------------------
  // Reading the event

  /** `v.get(k, {})`, or `None` when `v` has no `get` (the `AttributeError`
      the helpers catch). */
  function GetOrEmpty(v: Value, k: string): Option<Value>
  {
    match v
    case Dict(d) => Some(DictGet(d, k, Dict(map[])))
    case _ => None
  }

  /** A claim of the Cognito authorizer: `None` when some step of
      `requestContext.authorizer.claims` is not a dictionary, or when the
      claim is missing or falsy. */
  function Claim(event: Value, name: string): Option<Value>
  {
    match GetOrEmpty(event, "requestContext")
    case None => None
    case Some(context) =>
      match GetOrEmpty(context, "authorizer")
      case None => None
      case Some(authorizer) =>
        match GetOrEmpty(authorizer, "claims")
        case None => None
        case Some(claims) =>
          match claims
          case Dict(c) => if name in c && Truthy(c[name]) then Some(c[name]) else None
          case _ => None
  }

  /** `get_user_id_from_event(event)`. */
  function UserIdFromEvent(event: Value): Option<Value>
  {
    Claim(event, "sub")
  }

  /** `get_user_email_from_event(event)`. */
  function UserEmailFromEvent(event: Value): Option<Value>
  {
    Claim(event, "email")
  }

  /** A claim is found exactly when the full path to it exists through
      dictionaries and the value there is truthy: the empty defaults never
      produce a claim. */
  lemma ClaimSpec(event: Value, name: string)
    ensures forall v :: Claim(event, name) == Some(v) <==>
              PathValue(event, ["requestContext", "authorizer", "claims", name]) == Some(v) && Truthy(v)
  {
    var path := ["requestContext", "authorizer", "claims", name];
    assert path[1..] == ["authorizer", "claims", name];
    assert path[2..] == ["claims", name];
    assert path[3..] == [name];
    assert path[4..] == [];
    if event.Dict? && "requestContext" in event.entries {
      var context := event.entries["requestContext"];
      if context.Dict? && "authorizer" in context.entries {
        var authorizer := context.entries["authorizer"];
        if authorizer.Dict? && "claims" in authorizer.entries {
          var claims := authorizer.entries["claims"];
          calc {
            PathValue(event, path);
            PathValue(context, path[1..]);
            PathValue(authorizer, path[2..]);
            PathValue(claims, path[3..]);
          }
          if claims.Dict? && name in claims.entries {
            assert PathValue(claims, [name]) == PathValue(claims.entries[name], []);
          }
        } else {
          assert PathValue(event, path) == PathValue(context, path[1..]);
          assert PathValue(context, path[1..]) == PathValue(authorizer, path[2..]);
        }
      } else {
        assert PathValue(event, path) == PathValue(context, path[1..]);
      }
    } else {
      assert PathValue(event, path) == None;
    }
  }

  /** The user id is the non-empty `sub` claim. */
  lemma UserIdSpec(event: Value)
    ensures forall v :: UserIdFromEvent(event) == Some(v) <==>
              PathValue(event, ["requestContext", "authorizer", "claims", "sub"]) == Some(v) && Truthy(v)
  {
    ClaimSpec(event, "sub");
  }

  /** `event.get(kind, {}).get(name) if ... else None`, shared by the path
      and query parameter helpers. A JSON `null` parameter is Python's
      `None` too. */
  function Parameter(event: Value, kind: string, name: string): Option<Value>
  {
    match event
    case Dict(e) =>
      var params := DictGet(e, kind, Dict(map[]));
      if !Truthy(params) then None
      else (
        match params
        case Dict(p) => if name in p && p[name] != Null then Some(p[name]) else None
        case _ => None)
    case _ => None
  }

  /** `get_path_parameter(event, name)`. */
  function PathParameter(event: Value, name: string): Option<Value>
  {
    Parameter(event, "pathParameters", name)
  }

  /** `get_query_parameter(event, name)`. */
  function QueryParameter(event: Value, name: string): Option<Value>
  {
    Parameter(event, "queryStringParameters", name)
  }

  /** A parameter is found exactly when its map and its entry exist and
      the entry is not null; an absent or null parameter map gives `None`. */
  lemma ParameterSpec(event: Value, kind: string, name: string)
    ensures forall v :: Parameter(event, kind, name) == Some(v) <==>
              PathValue(event, [kind, name]) == Some(v) && v != Null
    ensures PathValue(event, [kind]) == None || PathValue(event, [kind]) == Some(Null) ==>
              Parameter(event, kind, name) == None
  {
    assert [kind, name][1..] == [name];
    assert [kind, name][2..] == [] && [kind][1..] == [];
    if event.Dict? && kind in event.entries {
      var params := event.entries[kind];
      assert PathValue(event, [kind]) == Some(params);
      assert PathValue(event, [kind, name]) == PathValue(params, [name]);
      if params.Dict? && name in params.entries {
        assert PathValue(params, [name]) == PathValue(params.entries[name], []);
      }
    } else {
      assert PathValue(event, [kind]) == None;
      assert PathValue(event, [kind, name]) == None;
    }
  }

  /** A decoded value as the caller sees it: `json.loads("null")` is
      Python's `None`, which is the absent result here, as it is for
      `Parameter`. */
  function NoneIfNull(decoded: Option<Value>): (r: Option<Value>)
    ensures r.Some? ==> r.value != Null
    ensures r.Some? <==> decoded.Some? && decoded.value != Null
    ensures r.Some? ==> r == decoded
  {
    if decoded == Some(Null) then None else decoded
  }

  /** `parse_request_body(event)`: a string body goes through the JSON
      decoder `decode` (which gives `None` on a decoding error), any other
      truthy body is returned as it is. */
  function ParseRequestBody(event: Value, decode: string -> Option<Value>): (r: Option<Value>)
    ensures r.Some? ==> event.Dict? && "body" in event.entries && Truthy(event.entries["body"])
    ensures r.Some? ==> r.value != Null
  {
    match event
    case Dict(e) =>
      var body := DictGet(e, "body", Null);
      if !Truthy(body) then None
      else if body.Str? then NoneIfNull(decode(body.s))
      else Some(body)
    case _ => None
  }

  /** The body is the value at `body`: when it is present and truthy, a
      string is decoded (a decoded `null` being `None`) and anything else
      returned as it is; a missing or
      falsy body, or an event that is not a dictionary, gives `None`. */
  lemma ParseRequestBodySpec(event: Value, decode: string -> Option<Value>)
    ensures var body := PathValue(event, ["body"]);
            && (body.Some? && Truthy(body.value) ==>
                  ParseRequestBody(event, decode) == (if body.value.Str? then NoneIfNull(decode(body.value.s)) else body))
            && (body.None? || !Truthy(body.value) ==> ParseRequestBody(event, decode) == None)
  {
    assert ["body"][1..] == [];
    if event.Dict? && "body" in event.entries {
      assert PathValue(event, ["body"]) == PathValue(event.entries["body"], []);
    }
  }

  // ---------------------------------------------------------------------
  // Validation

  /** The required fields that are absent or `None`, in the given order. */
  function Missing(data: map<string, Value>, fields: seq<string>): (m: seq<string>)
    ensures |m| <= |fields|
    ensures forall f :: f in m <==> f in fields && (f !in data || data[f] == Null)
  {
    if fields == [] then []
    else
      var f := fields[|fields| - 1];
      Missing(data, fields[..|fields| - 1]) + (if f !in data || data[f] == Null then [f] else [])
  }

  lemma MissingStep(data: map<string, Value>, fields: seq<string>, i: nat)
    requires i < |fields|
    ensures Missing(data, fields[..i + 1]) ==
              Missing(data, fields[..i]) + if fields[i] !in data || data[fields[i]] == Null then [fields[i]] else []
  {
    assert fields[..i + 1][..i] == fields[..i];
  }

  /** Missing fields are reported in order: the list for a concatenation is
      the concatenation of the lists. */
  lemma {:induction false} MissingInOrder(data: map<string, Value>, a: seq<string>, b: seq<string>)
    ensures Missing(data, a + b) == Missing(data, a) + Missing(data, b)
    decreases |b|
  {
    if b != [] {
      var n := |b| - 1;
      assert (a + b)[..|a + b| - 1] == a + b[..n];
      MissingInOrder(data, a, b[..n]);
    } else {
      assert a + b == a;
    }
  }

  const MissingPrefix: string := "Missing required fields: "

  /** The error message `validate_required_fields` returns. */
  function MissingMessage(data: map<string, Value>, fields: seq<string>): Option<string>
  {
    var m := Missing(data, fields);
    if m == [] then None else Some(MissingPrefix + Join(m, ", "))
  }

  /** The check passes exactly when every field is present and not null. */
  lemma MissingMessageSpec(data: map<string, Value>, fields: seq<string>)
    ensures MissingMessage(data, fields).None? <==> forall f :: f in fields ==> f in data && data[f] != Null
    ensures MissingMessage(data, fields).Some? ==>
              var msg := MissingMessage(data, fields).value;
              msg[..|MissingPrefix|] == MissingPrefix && msg[|MissingPrefix|..] == Join(Missing(data, fields), ", ")
  {
    var m := Missing(data, fields);
    if m != [] {
      assert m[0] in m;
    }
  }

  /** `validate_required_fields(data, required_fields)`, with its loop. */
  method ValidateRequiredFields(data: map<string, Value>, requiredFields: seq<string>)
    returns (error: Option<string>)
    ensures error == MissingMessage(data, requiredFields)
  {
    var missingFields: seq<string> := [];
    var i := 0;
    while i < |requiredFields|
      invariant 0 <= i <= |requiredFields|
      invariant missingFields == Missing(data, requiredFields[..i])
    {
      var field := requiredFields[i];
      MissingStep(data, requiredFields, i);
      if field !in data || data[field] == Null {
        missingFields := missingFields + [field];
      }
      i := i + 1;
    }
    assert requiredFields[..i] == requiredFields;
    if missingFields != [] {
      return Some(MissingPrefix + Join(missingFields, ", "));
    }
    return None;
  }

  predicate Digit(c: char)
  {
    '0' <= c <= '9'
  }

  /** Exactly `\d{4}-\d{2}-\d{2}`. */
  predicate DateShape(s: string)
  {
    && |s| == 10
    && Digit(s[0]) && Digit(s[1]) && Digit(s[2]) && Digit(s[3])
    && s[4] == '-' && Digit(s[5]) && Digit(s[6])
    && s[7] == '-' && Digit(s[8]) && Digit(s[9])
  }

  /** `validate_date_format(date_str)`: `re.match` of
      `^\d{4}-\d{2}-\d{2}$`, where `$` also matches before one final
      newline. */
  function ValidateDateFormat(s: string): bool
  {
    DateShape(s) || (|s| == 11 && s[10] == '\n' && DateShape(s[..10]))
  }

  /** Two decimal digits of `n`. */
  function Digits2(n: nat): (r: string)
    requires n < 100
  {
    [DigitChar(n / 10), DigitChar(n % 10)]
  }

  /** `YYYY-MM-DD` for any numbers of the right widths. */
  function FormatDate(year: nat, month: nat, day: nat): string
    requires year < 10000 && month < 100 && day < 100
  {
    Digits2(year / 100) + Digits2(year % 100) + "-" + Digits2(month) + "-" + Digits2(day)
  }

  /** The two-digit value at position `i`. */
  function Value2(s: string, i: nat): nat
    requires i + 1 < |s| && Digit(s[i]) && Digit(s[i + 1])
  {
    10 * (s[i] as int - '0' as int) + (s[i + 1] as int - '0' as int)
  }

  /** The two digits of a number below 100 spell it back. */
  lemma Digits2Value(s: string, i: nat)
    requires i + 1 < |s| && Digit(s[i]) && Digit(s[i + 1])
    ensures Value2(s, i) < 100 && Digits2(Value2(s, i)) == s[i..i + 2]
  {
    var v := Value2(s, i);
    var a, b := s[i] as int - '0' as int, s[i + 1] as int - '0' as int;
    assert v / 10 == a && v % 10 == b;
  }

  /** Every formatted date is accepted, whatever its month and day: there
      is no range check, so `2024-13-45` passes. */
  lemma FormatDateAccepted(year: nat, month: nat, day: nat)
    requires year < 10000 && month < 100 && day < 100
    ensures ValidateDateFormat(FormatDate(year, month, day))
  {
    var f := FormatDate(year, month, day);
    assert f == Digits2(year / 100) + Digits2(year % 100) + "-" + Digits2(month) + "-" + Digits2(day);
    assert DateShape(f);
  }

  /** Every accepted string without a trailing newline is the formatted
      date of the numbers it spells. */
  lemma AcceptedDateFormats(s: string)
    requires DateShape(s)
    ensures s == FormatDate(100 * Value2(s, 0) + Value2(s, 2), Value2(s, 5), Value2(s, 8))
  {
    Digits2Value(s, 0);
    Digits2Value(s, 2);
    Digits2Value(s, 5);
    Digits2Value(s, 8);
    var y := 100 * Value2(s, 0) + Value2(s, 2);
    assert y / 100 == Value2(s, 0) && y % 100 == Value2(s, 2);
    assert s == s[0..2] + s[2..4] + [s[4]] + s[5..7] + [s[7]] + s[8..10];
  }
}
