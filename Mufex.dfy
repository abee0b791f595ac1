/**
 * The Mufex adapter (`dex/mufex.py`): quantity rounding, side conversion,
 * request signing, the result-code check, order submission and confirmation,
 * position listing and closing every open position.
 *
 * The exchange is an oracle (`Exchange`): given the requests sent so far and the
 * next one, it says how the HTTP call ends. Every operation that talks to the
 * exchange takes the requests sent so far and returns them with its own appended,
 * so a contract can say which requests were sent and in what order.
 */
module Mufex {
  import opened Wrappers
  import opened Text
  import opened PyJson
  import opened Decimals
  import opened EnvConfig

  const MufexHttpMain: string := "https://api.mufex.finance"
  const MufexHttpTest: string := "https://api.testnet.mufex.finance"

  /** The receive window every signature is made with (the default of `__generate_signature`). */
  const RecvWindow: int := 5000

  // ---------------------------------------------------------------------------
  // round_size
  // ---------------------------------------------------------------------------

  /** `decimal.Decimal(j)` for a decoded JSON value. */
  function ToDecimal(j: Json): (r: Result<Decimal, PyError>)
    ensures j.JInt? ==> r == Ok(Decimal(j.i, 0))
    ensures j.JStr? ==> (r.Ok? <==> ParseDecimal(j.s).Some?) && (r.Ok? ==> r.value == ParseDecimal(j.s).value)
    ensures j.JNull? || j.JObj? ==> r.Err? && r.error.TypeError?
  {
    match j
    case JInt(i) => Ok(Decimal(i, 0))
    case JBool(b) => Ok(Decimal(if b then 1 else 0, 0))
    case JStr(s) =>
      (match ParseDecimal(s)
       case Some(d) => Ok(d)
       case None => Err(DecimalError("[<class 'decimal.ConversionSyntax'>]")))
    case JList(items) =>
      if |items| != 3 then Err(ValueError("argument must be a sequence of length 3"))
      else Err(Foreign("Decimal from a (sign, digits, exponent) triple"))
    case _ => Err(TypeError("conversion from " + TypeName(j) + " to Decimal is not supported"))
  }

  /**
   * `Decimal(int(size / step)) * step` on exact values: the quotient, taken at the
   * common exponent of the two, truncated toward zero, times the step. Division by
   * a zero step raises (DivisionUndefined when the size is zero too).
   */
  function RoundDecimal(size: Decimal, step: Decimal): (r: Result<Decimal, PyError>)
    ensures r.Err? <==> step.coef == 0
    ensures r.Ok? ==> r.value.exp == step.exp
  {
    if step.coef == 0 then
      Err(DecimalError(if size.coef == 0 then "[<class 'decimal.DivisionUndefined'>]" else "[<class 'decimal.DivisionByZero'>]"))
    else
      var e := MinExp(size, step);
      CoefAtSign(step, e);
      Ok(Decimal(TruncDiv(CoefAt(size, e), CoefAt(step, e)) * step.coef, step.exp))
  }

  /** `round_size(size, ticker_size)`. */
  function RoundSize(size: Json, step: Json): (r: Result<Decimal, PyError>)
    ensures r.Ok? ==> ToDecimal(size).Ok? && ToDecimal(step).Ok? && r == RoundDecimal(ToDecimal(size).value, ToDecimal(step).value)
  {
    match ToDecimal(size)
    case Err(e) => Err(e)
    case Ok(a) =>
      match ToDecimal(step)
      case Err(e) => Err(e)
      case Ok(b) => RoundDecimal(a, b)
  }

  /**
   * At the common exponent `e` of size and step, the rounded size is the truncated
   * quotient times the step, no larger than the size in magnitude, less than one step
   * away from it, and never of the opposite sign.
   */
  lemma RoundDecimalBounds(size: Decimal, step: Decimal)
    requires step.coef != 0
    ensures var r := RoundDecimal(size, step).value;
            var e := MinExp(size, step);
            var a := CoefAt(size, e);
            var b := CoefAt(step, e);
            MinExp(r, size) == e && b != 0 &&
            CoefAt(r, e) == TruncDiv(a, b) * b &&
            Abs(CoefAt(r, e)) <= Abs(a) && Abs(a - CoefAt(r, e)) < Abs(b) &&
            (size.coef >= 0 ==> CoefAt(r, e) >= 0) && (size.coef <= 0 ==> CoefAt(r, e) <= 0)
  {
    var e := MinExp(size, step);
    var a := CoefAt(size, e);
    var b := CoefAt(step, e);
    CoefAtSign(step, e);
    CoefAtSign(size, e);
    var q := TruncDiv(a, b);
    var r := RoundDecimal(size, step).value;
    MulAssoc(q, step.coef, Pow10(step.exp - e));
    assert CoefAt(r, e) == q * b;
    TruncDivBounds(a, b);
  }

  /** For a positive size and step the result is at most the size, more than the size less one step, and a whole number of steps. */
  lemma RoundSizePositive(size: Decimal, step: Decimal)
    requires size.coef > 0 && step.coef > 0
    ensures var r := RoundDecimal(size, step).value;
            var e := MinExp(size, step);
            AtMost(r, size) && CoefAt(size, e) - CoefAt(step, e) < CoefAt(r, e) &&
            CoefAt(r, e) == TruncDiv(CoefAt(size, e), CoefAt(step, e)) * CoefAt(step, e)
  {
    RoundDecimalBounds(size, step);
    CoefAtSign(size, MinExp(size, step));
    CoefAtSign(step, MinExp(size, step));
  }

  /** A negative size rounds up toward zero: the result lies between the size and zero. */
  lemma RoundSizeNegative(size: Decimal, step: Decimal)
    requires size.coef < 0 && step.coef != 0
    ensures var r := RoundDecimal(size, step).value;
            AtMost(size, r) && r.coef <= 0
  {
    var e := MinExp(size, step);
    RoundDecimalBounds(size, step);
    CoefAtSign(size, e);
    var r := RoundDecimal(size, step).value;
    CoefAtSign(r, e);
  }

  /** Rounding an already rounded size with the same step changes nothing. */
  lemma RoundSizeIdempotent(size: Decimal, step: Decimal)
    requires step.coef != 0
    ensures RoundDecimal(RoundDecimal(size, step).value, step) == RoundDecimal(size, step)
  {
    var r := RoundDecimal(size, step).value;
    var e := MinExp(size, step);
    var q := TruncDiv(CoefAt(size, e), CoefAt(step, e));
    assert r.coef == q * step.coef;
    assert MinExp(r, step) == step.exp;
    assert CoefAt(r, step.exp) == r.coef && CoefAt(step, step.exp) == step.coef;
    TruncDivExact(q, step.coef);
  }

  // ---------------------------------------------------------------------------
  // convert_side
  // ---------------------------------------------------------------------------

  /** `convert_side(side, reverse)`. */
  function ConvertSide(side: Json, reverse: bool): (r: Result<string, PyError>)
    ensures r.Ok? <==> side.JStr?
  {
    match side
    case JStr(s) =>
      var u := Upper(s);
      if u == "BUY" || u == "SELL" then
        Ok(if reverse then (if u == "BUY" then "Sell" else "Buy") else Capitalize(u))
      else Ok("Invalid Side")
    case _ => Err(AttributeError("'" + TypeName(side) + "' object has no attribute 'upper'"))
  }

  /** The side on the other side of the book. */
  function Opposite(side: string): string {
    if side == "Buy" then "Sell" else if side == "Sell" then "Buy" else side
  }

  lemma CapitalizeSides()
    ensures Capitalize("BUY") == "Buy" && Capitalize("SELL") == "Sell"
  {
    var b := Capitalize("BUY");
    assert b[1] == 'u' && b[2] == 'y';
    var s := Capitalize("SELL");
    assert s[1] == 'e' && s[2] == 'l' && s[3] == 'l';
  }

  /**
   * Without reverse a buy becomes "Buy" and a sell "Sell"; with reverse the two
   * swap; anything else is "Invalid Side" either way.
   */
  lemma ConvertSideValues(s: string, reverse: bool)
    ensures Upper(s) == "BUY" ==> ConvertSide(JStr(s), reverse) == Ok(if reverse then "Sell" else "Buy")
    ensures Upper(s) == "SELL" ==> ConvertSide(JStr(s), reverse) == Ok(if reverse then "Buy" else "Sell")
    ensures Upper(s) != "BUY" && Upper(s) != "SELL" ==> ConvertSide(JStr(s), reverse) == Ok("Invalid Side")
    ensures ConvertSide(JStr(s), true) == Ok(Opposite(ConvertSide(JStr(s), false).value))
  {
    CapitalizeSides();
  }

  /** The side is read without regard to case: upper- or lower-casing it first gives the same answer. */
  lemma ConvertSideIgnoresCase(s: string, reverse: bool)
    ensures ConvertSide(JStr(Upper(s)), reverse) == ConvertSide(JStr(s), reverse)
    ensures ConvertSide(JStr(LowerAscii(s)), reverse) == ConvertSide(JStr(s), reverse)
  {
    UpperIdempotent(s);
    UpperLowerAscii(s);
  }

  /** A position is closed from the other side of the book: reversing turns "Buy" into "Sell" and "Sell" into "Buy". */
  lemma ReverseClosesSide(side: string)
    requires side == "Buy" || side == "Sell"
    ensures ConvertSide(JStr(side), true) == Ok(Opposite(side))
  {
    assert Upper("y") == "Y" && Upper("l") == "L";
    assert Upper("uy") == "UY" && Upper("ll") == "LL";
    assert Upper("ell") == "ELL";
  }

  // ---------------------------------------------------------------------------
  // The adapter, its transport and its signatures
  // ---------------------------------------------------------------------------

  /** A `MufexDex`: the credentials and the base URL, set once by the constructor. */
  datatype MufexDex = MufexDex(apiKey: string, apiSecret: string, http: string)

  /**
   * `MufexDex(env_mode)`. `decryptedEnv` stands for the `get_decrypted_env` the
   * module imports (see the README: `dex/kms_decrypt.py` does not define it).
   */
  function NewMufexDex(envMode: string, decryptedEnv: string -> Option<string>): (r: Result<MufexDex, PyError>)
  {
    var suffix := Suffix(envMode);
    var vars := [("MUFEX_API_KEY", decryptedEnv("MUFEX_API_KEY" + suffix)),
                 ("MUFEX_API_SECRET", decryptedEnv("MUFEX_API_SECRET" + suffix))];
    var missing := MissingVars(vars);
    if missing != [] then Err(EnvironmentError(MissingMessage(missing)))
    else
      assert vars[0].1.Some? && vars[1].1.Some?;
      Ok(MufexDex(vars[0].1.value, vars[1].1.value, if envMode == "MAINNET" then MufexHttpMain else MufexHttpTest))
  }

  /**
   * The adapter is built iff both credentials are found under the names with the
   * mode's suffix; otherwise the error names the missing ones in declaration order.
   * Mainnet URL iff the mode is "MAINNET".
   */
  lemma NewMufexDexSpec(envMode: string, decryptedEnv: string -> Option<string>)
    ensures var suffix := Suffix(envMode);
            var key := decryptedEnv("MUFEX_API_KEY" + suffix);
            var secret := decryptedEnv("MUFEX_API_SECRET" + suffix);
            var r := NewMufexDex(envMode, decryptedEnv);
            (r.Ok? <==> key.Some? && secret.Some?) &&
            (r.Ok? ==> r.value.apiKey == key.value && r.value.apiSecret == secret.value &&
                       (r.value.http == MufexHttpMain <==> envMode == "MAINNET") &&
                       (envMode != "MAINNET" ==> r.value.http == MufexHttpTest)) &&
            (r.Err? ==> r.error == EnvironmentError(MissingMessage(
                          (if key.None? then ["MUFEX_API_KEY"] else []) + (if secret.None? then ["MUFEX_API_SECRET"] else []))))
  {
    var suffix := Suffix(envMode);
    var k := ("MUFEX_API_KEY", decryptedEnv("MUFEX_API_KEY" + suffix));
    var s := ("MUFEX_API_SECRET", decryptedEnv("MUFEX_API_SECRET" + suffix));
    MissingVarsCons(k, [s]);
    MissingVarsCons(s, []);
    assert [k] + [s] == [k, s];
    assert [s] + [] == [s];
    var b: seq<string> := if s.1.None? then [s.0] else [];
    assert MissingVars([s]) == b + [] == b;
  }

  /** `ApiResponse(data, error)`. */
  datatype ApiResponse = ApiResponse(data: Json, error: Option<string>)

  /** `if response.is_error():` — the truth value of the error text. */
  predicate IsError(r: ApiResponse) {
    r.error.Some? && r.error.value != ""
  }

  /** The `MF-ACCESS-*` headers of a signed request, with `Content-Type` when the body is JSON. */
  datatype AuthHeaders = AuthHeaders(signType: string, sign: string, apiKey: string, timestamp: string,
                                     recvWindow: string, contentType: Option<string>)

  /** One HTTP call as the adapter makes it: `params` go in the query string; an unsigned call has no headers. */
  datatype Request =
    | HttpGet(url: string, params: seq<(string, Json)>, auth: Option<AuthHeaders>)
    | HttpPost(url: string, body: Json, auth: Option<AuthHeaders>)

  /**
   * How an HTTP call ends: a decoded JSON body, a timeout, or some other exception
   * (an HTTP error status, a connection error, a body that is not JSON) with its text.
   */
  datatype Outcome = Answered(body: Json) | TimedOut | Raised(message: string)

  /** What the model leaves abstract about the outside world. */
  datatype Exchange = Exchange(
    /** How the next call ends, given the calls made before it. */
    reply: (seq<Request>, Request) -> Outcome,
    /** `int(time.time() * 1000)` after the given calls. */
    clock: seq<Request> -> int,
    /** `hmac.new(secret, message, sha256).hexdigest()`. */
    hmac: (string, string) -> string,
    /** `json.dumps` of a body. */
    dumps: Json -> string,
    /** `urllib.parse.quote_plus`. */
    quotePlus: string -> string,
    /** `str()` of a list or dict. */
    containerStr: Json -> string,
    /** `str(float(val) / float(size))`, for the fill price. */
    fillPrice: (Json, Json) -> Result<string, PyError>)

  /** The outcome of talking to the exchange: a result or an exception, and every request sent. */
  datatype Run<T> = Run(outcome: Result<T, PyError>, sent: seq<Request>)

  /** A Flask reply, with every request sent. */
  datatype Exchanged = Exchanged(reply: HttpReply, sent: seq<Request>)

  /** `__send_get_request` / `__send_post_request`: the call's outcome as an `ApiResponse`. */
  function Send(x: Exchange, sent: seq<Request>, req: Request): (r: ApiResponse)
    ensures x.reply(sent, req).Answered? ==> r == ApiResponse(x.reply(sent, req).body, None)
    ensures x.reply(sent, req).TimedOut? ==> r.error == Some("Request timed out: url=" + req.url)
    ensures x.reply(sent, req).Raised? ==> r.error == Some(x.reply(sent, req).message)
  {
    match x.reply(sent, req)
    case Answered(body) => ApiResponse(body, None)
    case TimedOut => ApiResponse(JNull, Some("Request timed out: url=" + req.url))
    case Raised(message) => ApiResponse(JNull, Some(message))
  }

  /** The signature, timestamp and receive window `__generate_signature` returns. */
  datatype Signature = Signature(signature: string, timestamp: int, recvWindow: int)

  /** The signed message: `f"{timestamp}{api_key}{recv_window}{query_string}{json_body_string}"`. */
  function Prehash(timestamp: int, apiKey: string, recvWindow: int, query: string, body: string): string {
    IntToString(timestamp) + apiKey + IntToString(recvWindow) + query + body
  }

  /** `__generate_signature(query_string, json_body_string)`, called after the requests `sent`. */
  function GenerateSignature(dex: MufexDex, x: Exchange, sent: seq<Request>, query: string, body: string): (s: Signature)
    ensures s.recvWindow == RecvWindow && s.timestamp == x.clock(sent)
    ensures s.signature == x.hmac(dex.apiSecret, Prehash(s.timestamp, dex.apiKey, s.recvWindow, query, body))
  {
    var timestamp := x.clock(sent);
    Signature(x.hmac(dex.apiSecret, Prehash(timestamp, dex.apiKey, RecvWindow, query, body)), timestamp, RecvWindow)
  }

  /** The headers built from a signature. */
  function SignedHeaders(apiKey: string, s: Signature, json: bool): AuthHeaders {
    AuthHeaders("2", s.signature, apiKey, IntToString(s.timestamp), IntToString(s.recvWindow),
                if json then Some("application/json") else None)
  }

  /**
   * The check the exchange makes: recompute the HMAC over the headers' timestamp,
   * key and receive window, then the query and the body, and compare.
   */
  predicate SignatureChecks(x: Exchange, secret: string, h: AuthHeaders, query: string, body: string) {
    h.signType == "2" && h.sign == x.hmac(secret, h.timestamp + h.apiKey + h.recvWindow + query + body)
  }

  /**
   * Signed headers pass the exchange's check, and the timestamp and receive window
   * they carry read back as the ones the signature was made with.
   */
  lemma SignedHeadersCheck(dex: MufexDex, x: Exchange, sent: seq<Request>, query: string, body: string, json: bool)
    ensures var h := SignedHeaders(dex.apiKey, GenerateSignature(dex, x, sent, query, body), json);
            SignatureChecks(x, dex.apiSecret, h, query, body) && h.apiKey == dex.apiKey &&
            ParseInteger(h.timestamp) == Some(x.clock(sent)) && ParseInteger(h.recvWindow) == Some(RecvWindow) &&
            (h.contentType == Some("application/json") <==> json)
  {
    IntToStringRoundTrip(x.clock(sent));
    IntToStringRoundTrip(RecvWindow);
  }

  /** `urllib.parse.urlencode(params)`: `key=value` pairs joined by `&`, each part quoted with `quote_plus`. */
  function UrlEncode(x: Exchange, params: seq<(string, Json)>): string {
    Join("&", seq(|params|, i requires 0 <= i < |params| =>
      x.quotePlus(params[i].0) + "=" + x.quotePlus(PyStr(params[i].1, x.containerStr))))
  }

  /** A request the exchange authenticates: it is signed, over its query string or over its JSON body. */
  predicate Authentic(x: Exchange, secret: string, req: Request) {
    req.auth.Some? &&
    match req
    case HttpGet(_, params, _) => SignatureChecks(x, secret, req.auth.value, UrlEncode(x, params), "")
    case HttpPost(_, body, _) => SignatureChecks(x, secret, req.auth.value, "", x.dumps(body))
  }

  // ---------------------------------------------------------------------------
  // The result-code check
  // ---------------------------------------------------------------------------

  /**
   * `code = data.get('code', 9999)` and, for a nonzero code,
   * `data.get('message', '') + f"{sep}({code})"`: `None` when the code is 0, the
   * error text otherwise. `sep` is " " on the order paths and "" on the positions path.
   */
  function CodeError(x: Exchange, data: Json, sep: string): Result<Option<string>, PyError> {
    match Get(data, "code", JInt(9999))
    case Err(e) => Err(e)
    case Ok(code) =>
      if EqualsZero(code) then Ok(None)
      else
        match ConcatStr(Get(data, "message", JStr("")).value, sep + "(" + PyStr(code, x.containerStr) + ")")
        case Err(e) => Err(e)
        case Ok(m) => Ok(Some(m))
  }

  /** The code a response carries, 9999 when it has none. */
  function CodeOf(fields: seq<(string, Json)>): Json {
    match Lookup(fields, "code")
    case Some(c) => c
    case None => JInt(9999)
  }

  /** The message a response carries, "" when it has none. */
  function MessageOf(fields: seq<(string, Json)>): Json {
    match Lookup(fields, "message")
    case Some(m) => m
    case None => JStr("")
  }

  /**
   * A response object passes iff its code is 0; otherwise the error text is its
   * message followed by `sep` and the code in parentheses, and a message that is
   * not a string raises TypeError.
   */
  lemma CodeErrorSpec(x: Exchange, fields: seq<(string, Json)>, sep: string)
    ensures var r := CodeError(x, JObj(fields), sep);
            var code := CodeOf(fields);
            var msg := MessageOf(fields);
            (r == Ok(None) <==> EqualsZero(code)) &&
            (!EqualsZero(code) && msg.JStr? ==> r == Ok(Some(msg.s + (sep + "(" + PyStr(code, x.containerStr) + ")")))) &&
            (!EqualsZero(code) && !msg.JStr? ==> r.Err? && r.error.TypeError?)
  {}

  /** A response without a code never passes: its code counts as 9999, and the error text ends in "(9999)". */
  lemma MissingCode(x: Exchange, fields: seq<(string, Json)>)
    requires Lookup(fields, "code").None?
    ensures !EqualsZero(CodeOf(fields)) && PyStr(CodeOf(fields), x.containerStr) == "9999"
  {
    assert NatToString(9999) == NatToString(999) + [DigitChar(9)];
    assert NatToString(999) == NatToString(99) + [DigitChar(9)];
    assert NatToString(99) == NatToString(9) + [DigitChar(9)];
  }

  /** Anything that is not an object fails the check with an AttributeError (`.get` of a list, a string, None). */
  lemma CodeErrorNotObject(x: Exchange, data: Json, sep: string)
    requires !data.JObj?
    ensures CodeError(x, data, sep) == Err(AttributeError("'" + TypeName(data) + "' object has no attribute 'get'"))
  {}

  /** An integer code can be read back from the error text: it is the number between the final parentheses. */
  lemma CodeErrorReadsBack(x: Exchange, fields: seq<(string, Json)>, sep: string, m: string)
    requires CodeError(x, JObj(fields), sep) == Ok(Some(m))
    requires CodeOf(fields).JInt?
    ensures var t := IntToString(CodeOf(fields).i);
            |m| >= |t| + 2 && m[|m| - 1] == ')' && m[|m| - |t| - 2] == '(' &&
            ParseInteger(m[|m| - |t| - 1..|m| - 1]) == Some(CodeOf(fields).i)
  {
    var c := CodeOf(fields).i;
    var t := IntToString(c);
    var msg := Get(JObj(fields), "message", JStr("")).value;
    assert m == msg.s + sep + "(" + t + ")";
    assert m[|m| - |t| - 1..|m| - 1] == t;
    IntToStringRoundTrip(c);
  }

  // ---------------------------------------------------------------------------
  // __create_order_internal
  // ---------------------------------------------------------------------------

  /** The order body: the symbol without hyphens, the converted side, a market IOC order of `qty` on position 0. */
  function OrderBody(symbol: string, side: string, qty: string): Json {
    JObj([("symbol", JStr(symbol)), ("side", JStr(side)), ("positionIdx", JInt(0)),
          ("orderType", JStr("Market")), ("qty", JStr(qty)), ("timeInForce", JStr("ImmediateOrCancel"))])
  }

  /** The body carries the symbol, side and quantity given, a market IOC order on position 0, and no price. */
  lemma OrderBodyFields(symbol: string, side: string, qty: string)
    ensures var f := OrderBody(symbol, side, qty).fields;
            Lookup(f, "symbol") == Some(JStr(symbol)) && Lookup(f, "side") == Some(JStr(side)) &&
            Lookup(f, "qty") == Some(JStr(qty)) && Lookup(f, "positionIdx") == Some(JInt(0)) &&
            Lookup(f, "orderType") == Some(JStr("Market")) &&
            Lookup(f, "timeInForce") == Some(JStr("ImmediateOrCancel")) &&
            Lookup(f, "price").None?
  {
    var f := OrderBody(symbol, side, qty).fields;
    LookupUnique(f, 0);
    LookupUnique(f, 1);
    LookupUnique(f, 2);
    LookupUnique(f, 3);
    LookupUnique(f, 4);
    LookupUnique(f, 5);
    LookupSpec(f, "price");
  }

  /** The unsigned instrument query for a symbol. */
  function InstrumentsRequest(dex: MufexDex, symbol: string): Request {
    HttpGet(dex.http + "/public/v1/instruments", [("category", JStr("linear")), ("symbol", JStr(symbol))], None)
  }

  /** The signed order submission, whose signature covers the JSON text of the body. */
  function CreateRequest(dex: MufexDex, x: Exchange, sent: seq<Request>, body: Json): Request {
    HttpPost(dex.http + "/private/v1/trade/create", body,
             Some(SignedHeaders(dex.apiKey, GenerateSignature(dex, x, sent, "", x.dumps(body)), true)))
  }

  /** The query string parameters of the order confirmation. */
  function ActivityParams(id: Json, symbol: string): seq<(string, Json)> {
    [("orderId", id), ("symbol", JStr(symbol))]
  }

  /** The signed order confirmation query, whose signature covers the encoded parameters. */
  function ActivityRequest(dex: MufexDex, x: Exchange, sent: seq<Request>, id: Json, symbol: string): Request {
    var params := ActivityParams(id, symbol);
    HttpGet(dex.http + "/private/v1/trade/activity-orders", params,
            Some(SignedHeaders(dex.apiKey, GenerateSignature(dex, x, sent, UrlEncode(x, params), ""), false)))
  }

  /** The submission is signed over its body's JSON text, with a JSON content type. */
  lemma CreateRequestAuthentic(dex: MufexDex, x: Exchange, sent: seq<Request>, body: Json)
    ensures var req := CreateRequest(dex, x, sent, body);
            req.HttpPost? && req.body == body && Authentic(x, dex.apiSecret, req) &&
            req.auth.value.contentType == Some("application/json") &&
            ParseInteger(req.auth.value.timestamp) == Some(x.clock(sent))
  {
    SignedHeadersCheck(dex, x, sent, "", x.dumps(body), true);
  }

  /** The confirmation is signed over its encoded parameters, the order id and the symbol. */
  lemma ActivityRequestAuthentic(dex: MufexDex, x: Exchange, sent: seq<Request>, id: Json, symbol: string)
    ensures var req := ActivityRequest(dex, x, sent, id, symbol);
            req.HttpGet? && req.params == [("orderId", id), ("symbol", JStr(symbol))] &&
            Authentic(x, dex.apiSecret, req) && req.auth.value.contentType.None? &&
            ParseInteger(req.auth.value.timestamp) == Some(x.clock(sent))
  {
    SignedHeadersCheck(dex, x, sent, UrlEncode(x, ActivityParams(id, symbol)), "", false);
  }

  /** The items of `data["data"]["list"]`, by key lookup, when that value is a list. */
  function ListItems(data: Json): Option<seq<Json>> {
    if data.JObj? && Lookup(data.fields, "data").Some? && Lookup(data.fields, "data").value.JObj? then
      var d := Lookup(data.fields, "data").value;
      if Lookup(d.fields, "list").Some? && Lookup(d.fields, "list").value.JList? then Some(Lookup(d.fields, "list").value.items)
      else None
    else None
  }

  /** `data["data"]["list"][0]`: the first item of a non-empty list, and an object it returns is always one. */
  function FirstListItem(data: Json): (r: Result<Json, PyError>)
    ensures ListItems(data).Some? && ListItems(data).value != [] ==> r == Ok(ListItems(data).value[0])
    ensures r.Ok? && r.value.JObj? ==>
              ListItems(data).Some? && ListItems(data).value != [] && r.value == ListItems(data).value[0]
  {
    match Subscript(data, "data")
    case Err(e) => Err(e)
    case Ok(d) =>
      match Subscript(d, "list")
      case Err(e) => Err(e)
      case Ok(l) => Index0(l)
  }

  /** `data["data"]["list"][0]["lotSizeFilter"]["qtyStep"]`. */
  function QtyStep(data: Json): Result<Json, PyError> {
    match FirstListItem(data)
    case Err(e) => Err(e)
    case Ok(item) =>
      match Subscript(item, "lotSizeFilter")
      case Err(e) => Err(e)
      case Ok(f) => Subscript(f, "qtyStep")
  }

  /** `data['data']['orderId']`. */
  function OrderId(data: Json): Result<Json, PyError> {
    match Subscript(data, "data")
    case Err(e) => Err(e)
    case Ok(d) => Subscript(d, "orderId")
  }

  /**
   * `__create_order_internal(symbol, size, side, price, reverse)`: fetch the
   * instrument's quantity step, submit the rounded order, then confirm it. The
   * first error response is returned at once; an exception escapes.
   */
  function CreateOrderInternal(dex: MufexDex, x: Exchange, symbol: Json, size: Json, side: Json, price: Json,
                               reverse: bool, sent: seq<Request>): Run<ApiResponse>
  {
    match AsStr(symbol, "replace")
    case Err(e) => Run(Err(e), sent)
    case Ok(s) =>
      var sym := RemoveChar(s, '-');
      var req := InstrumentsRequest(dex, sym);
      var resp := Send(x, sent, req);
      if IsError(resp) then Run(Ok(resp), sent + [req])
      else SubmitOrder(dex, x, sym, size, side, reverse, resp.data, sent + [req])
  }

  /** From the instrument data on: round the size, convert the side, submit, check the code, confirm. */
  function SubmitOrder(dex: MufexDex, x: Exchange, sym: string, size: Json, side: Json, reverse: bool,
                       instrument: Json, sent: seq<Request>): Run<ApiResponse>
  {
    match QtyStep(instrument)
    case Err(e) => Run(Err(e), sent)
    case Ok(step) =>
      match RoundSize(size, step)
      case Err(e) => Run(Err(e), sent)
      case Ok(rounded) =>
        match ConvertSide(side, reverse)
        case Err(e) => Run(Err(e), sent)
        case Ok(sideName) =>
          var req := CreateRequest(dex, x, sent, OrderBody(sym, sideName, DecimalToString(rounded)));
          Created(dex, x, sym, Send(x, sent, req), sent + [req])
  }

  /** The submission's response: an error response or a nonzero code ends the operation, otherwise the order is confirmed. */
  function Created(dex: MufexDex, x: Exchange, sym: string, resp: ApiResponse, sent: seq<Request>): Run<ApiResponse> {
    if IsError(resp) then Run(Ok(resp), sent)
    else
      match CodeError(x, resp.data, " ")
      case Err(e) => Run(Err(e), sent)
      case Ok(Some(m)) => Run(Ok(ApiResponse(JNull, Some(m))), sent)
      case Ok(None) => ConfirmOrder(dex, x, sym, resp.data, sent)
  }

  /** From the accepted submission on: query the order by its id and check the code again. */
  function ConfirmOrder(dex: MufexDex, x: Exchange, sym: string, created: Json, sent: seq<Request>): Run<ApiResponse> {
    match OrderId(created)
    case Err(e) => Run(Err(e), sent)
    case Ok(id) =>
      var req := ActivityRequest(dex, x, sent, id, sym);
      var resp := Send(x, sent, req);
      if IsError(resp) then Run(Ok(resp), sent + [req])
      else
        match CodeError(x, resp.data, " ")
        case Err(e) => Run(Err(e), sent + [req])
        case Ok(Some(m)) => Run(Ok(ApiResponse(JNull, Some(m))), sent + [req])
        case Ok(None) => Run(Ok(resp), sent + [req])
  }

  /**
   * The first request is the unsigned instrument query for the symbol without
   * hyphens; if it fails nothing else is sent. A symbol that is not a string
   * raises AttributeError before anything is sent. The price is never used.
   */
  lemma CreateOrderFetchesInstrument(dex: MufexDex, x: Exchange, symbol: Json, size: Json, side: Json,
                                     price: Json, other: Json, reverse: bool, sent: seq<Request>)
    ensures var r := CreateOrderInternal(dex, x, symbol, size, side, price, reverse, sent);
            r == CreateOrderInternal(dex, x, symbol, size, side, other, reverse, sent) &&
            (!symbol.JStr? ==> r.sent == sent && r.outcome.Err? && r.outcome.error.AttributeError?) &&
            (symbol.JStr? ==>
               var sym := RemoveChar(symbol.s, '-');
               var req := InstrumentsRequest(dex, sym);
               var resp := Send(x, sent, req);
               '-' !in sym && req.auth.None? && req.params == [("category", JStr("linear")), ("symbol", JStr(sym))] &&
               (IsError(resp) ==> r == Run(Ok(resp), sent + [req])) &&
               (!IsError(resp) ==> r == SubmitOrder(dex, x, sym, size, side, reverse, resp.data, sent + [req])))
  {}

  /** Nothing is sent before the instrument data is read, the size rounded and the side converted. */
  lemma SubmitOrderNeedsInputs(dex: MufexDex, x: Exchange, sym: string, size: Json, side: Json, reverse: bool,
                               instrument: Json, sent: seq<Request>)
    requires QtyStep(instrument).Err? || RoundSize(size, QtyStep(instrument).value).Err? || !side.JStr?
    ensures var r := SubmitOrder(dex, x, sym, size, side, reverse, instrument, sent);
            r.sent == sent && r.outcome.Err?
  {}

  /**
   * With the inputs readable, the next request is the signed submission to the
   * create endpoint: its body carries the symbol, the side (the opposite one when
   * reversing), the rounded quantity as text, and no price; then the response is
   * checked as `Created` describes.
   */
  lemma SubmitOrderSends(dex: MufexDex, x: Exchange, sym: string, size: Json, side: Json, reverse: bool,
                         instrument: Json, sent: seq<Request>)
    requires QtyStep(instrument).Ok? && RoundSize(size, QtyStep(instrument).value).Ok? && side.JStr?
    ensures var r := SubmitOrder(dex, x, sym, size, side, reverse, instrument, sent);
            |r.sent| > |sent| && r.sent[..|sent|] == sent &&
            var req := r.sent[|sent|];
            req.HttpPost? && req.url == dex.http + "/private/v1/trade/create" && Authentic(x, dex.apiSecret, req) &&
            req.body.JObj? &&
            var unreversed := ConvertSide(side, false).value;
            Lookup(req.body.fields, "symbol") == Some(JStr(sym)) &&
            Lookup(req.body.fields, "side") == Some(JStr(if reverse then Opposite(unreversed) else unreversed)) &&
            unreversed in {"Buy", "Sell", "Invalid Side"} &&
            Lookup(req.body.fields, "qty") == Some(JStr(DecimalToString(RoundSize(size, QtyStep(instrument).value).value))) &&
            Lookup(req.body.fields, "price").None? &&
            r == Created(dex, x, sym, Send(x, sent, req), sent + [req])
  {
    var qty := DecimalToString(RoundSize(size, QtyStep(instrument).value).value);
    var sideName := ConvertSide(side, reverse).value;
    var body := OrderBody(sym, sideName, qty);
    var req := CreateRequest(dex, x, sent, body);
    var resp := Send(x, sent, req);
    var r := SubmitOrder(dex, x, sym, size, side, reverse, instrument, sent);
    assert r == Created(dex, x, sym, resp, sent + [req]);
    CreatedExtends(dex, x, sym, resp, sent + [req]);
    assert r.sent[..|sent|] == (sent + [req])[..|sent|] == sent;
    assert r.sent[|sent|] == (sent + [req])[|sent|] == req;
    SubmissionRequest(dex, x, sent, sym, side.s, reverse, qty);
  }

  /** The submission request for a side given as text, in lookup terms. */
  lemma SubmissionRequest(dex: MufexDex, x: Exchange, sent: seq<Request>, sym: string, side: string, reverse: bool, qty: string)
    ensures var req := CreateRequest(dex, x, sent, OrderBody(sym, ConvertSide(JStr(side), reverse).value, qty));
            var unreversed := ConvertSide(JStr(side), false).value;
            req.HttpPost? && req.url == dex.http + "/private/v1/trade/create" && Authentic(x, dex.apiSecret, req) &&
            req.body.JObj? &&
            Lookup(req.body.fields, "symbol") == Some(JStr(sym)) &&
            Lookup(req.body.fields, "side") == Some(JStr(if reverse then Opposite(unreversed) else unreversed)) &&
            unreversed in {"Buy", "Sell", "Invalid Side"} &&
            Lookup(req.body.fields, "qty") == Some(JStr(qty)) && Lookup(req.body.fields, "price").None?
  {
    var body := OrderBody(sym, ConvertSide(JStr(side), reverse).value, qty);
    CreateRequestAuthentic(dex, x, sent, body);
    OrderBodyFields(sym, ConvertSide(JStr(side), reverse).value, qty);
    ConvertSideValues(side, reverse);
  }

  /**
   * An error response or a nonzero code ends the operation with that error and
   * nothing further sent; a zero code leads to the confirmation.
   */
  lemma CreatedSpec(dex: MufexDex, x: Exchange, sym: string, resp: ApiResponse, sent: seq<Request>)
    ensures var r := Created(dex, x, sym, resp, sent);
            (IsError(resp) ==> r == Run(Ok(resp), sent)) &&
            (!IsError(resp) && CodeError(x, resp.data, " ").Ok? && CodeError(x, resp.data, " ").value.Some? ==>
               r == Run(Ok(ApiResponse(JNull, CodeError(x, resp.data, " ").value)), sent) && IsError(r.outcome.value)) &&
            (!IsError(resp) && CodeError(x, resp.data, " ") == Ok(None) ==> r == ConfirmOrder(dex, x, sym, resp.data, sent))
  {
    if !IsError(resp) && resp.data.JObj? && CodeError(x, resp.data, " ").Ok? && CodeError(x, resp.data, " ").value.Some? {
      CodeErrorSpec(x, resp.data.fields, " ");
    }
  }

  /** Checking the submission's response only appends to the log. */
  lemma CreatedExtends(dex: MufexDex, x: Exchange, sym: string, resp: ApiResponse, sent: seq<Request>)
    ensures var r := Created(dex, x, sym, resp, sent);
            |r.sent| >= |sent| && r.sent[..|sent|] == sent
  {
    if !IsError(resp) && CodeError(x, resp.data, " ") == Ok(None) {
      ConfirmOrderSends(dex, x, sym, resp.data, sent);
    }
  }

  /**
   * The confirmation queries the order id and the symbol; it is the last request.
   * An error response to it is returned as it is, a nonzero code gives the
   * message and " (code)", and with code 0 its response is returned.
   */
  lemma ConfirmOrderSends(dex: MufexDex, x: Exchange, sym: string, created: Json, sent: seq<Request>)
    ensures var r := ConfirmOrder(dex, x, sym, created, sent);
            (OrderId(created).Err? ==> r == Run(Err(OrderId(created).error), sent)) &&
            (OrderId(created).Ok? ==>
               var req := ActivityRequest(dex, x, sent, OrderId(created).value, sym);
               var resp := Send(x, sent, req);
               r.sent == sent + [req] &&
               (IsError(resp) ==> r == Run(Ok(resp), sent + [req])) &&
               (!IsError(resp) && CodeError(x, resp.data, " ").Ok? && CodeError(x, resp.data, " ").value.Some? ==>
                  r == Run(Ok(ApiResponse(JNull, CodeError(x, resp.data, " ").value)), sent + [req])) &&
               (!IsError(resp) && CodeError(x, resp.data, " ") == Ok(None) ==> r.outcome == Ok(resp)))
  {}

  /** A reversed submission for a `Buy` position sells, and one for a `Sell` position buys. */
  lemma ReverseSubmitsOpposite(dex: MufexDex, x: Exchange, sym: string, size: Json, side: string,
                               instrument: Json, sent: seq<Request>)
    requires QtyStep(instrument).Ok? && RoundSize(size, QtyStep(instrument).value).Ok?
    requires side == "Buy" || side == "Sell"
    ensures var qty := DecimalToString(RoundSize(size, QtyStep(instrument).value).value);
            var req := CreateRequest(dex, x, sent, OrderBody(sym, Opposite(side), qty));
            SubmitOrder(dex, x, sym, size, JStr(side), true, instrument, sent) == Created(dex, x, sym, Send(x, sent, req), sent + [req])
  {
    ReverseClosesSide(side);
    SubmitOrderSends(dex, x, sym, size, JStr(side), true, instrument, sent);
  }

  // ---------------------------------------------------------------------------
  // create_order
  // ---------------------------------------------------------------------------

  /** `make_response(jsonify({'message': error}), 500)`. */
  function ErrorReply(message: string): HttpReply {
    Reply(500, JObj([("message", JStr(message))]))
  }

  /** The reply for a confirmed order: its fill when the status is `Filled`, an empty body otherwise. */
  function FilledReply(x: Exchange, data: Json): HttpReply {
    match FirstListItem(data)
    case Err(e) => Crash(e)
    case Ok(order) =>
      match Subscript(order, "orderStatus")
      case Err(e) => Crash(e)
      case Ok(status) =>
        if status != JStr("Filled") then Reply(200, JObj([]))
        else
          match Subscript(order, "cumExecQty")
          case Err(e) => Crash(e)
          case Ok(size) =>
            match Subscript(order, "cumExecValue")
            case Err(e) => Crash(e)
            case Ok(value) =>
              match Subscript(order, "cumExecFee")
              case Err(e) => Crash(e)
              case Ok(fee) =>
                match x.fillPrice(value, size)
                case Err(e) => Crash(e)
                case Ok(price) => Reply(200, JObj([("price", JStr(price)), ("size", size), ("fee", fee)]))
  }

  /** `create_order(symbol, size, side, price)`: submit without reversing, then report the fill. */
  function CreateOrder(dex: MufexDex, x: Exchange, symbol: Json, size: Json, side: Json, price: Json,
                       sent: seq<Request>): Exchanged
  {
    OrderReply(x, CreateOrderInternal(dex, x, symbol, size, side, price, false, sent))
  }

  /** The reply to the outcome of an order. */
  function OrderReply(x: Exchange, r: Run<ApiResponse>): Exchanged {
    match r.outcome
    case Err(e) => Exchanged(Crash(e), r.sent)
    case Ok(resp) =>
      if IsError(resp) then Exchanged(ErrorReply(resp.error.value), r.sent)
      else Exchanged(FilledReply(x, resp.data), r.sent)
  }

  /**
   * Unless an exception escapes, the reply is 200 or 500; it is 500 exactly for an
   * error response, with its text; it is an empty 200 exactly when the first
   * order's `orderStatus` is present and not `Filled`; any other 200 is a filled
   * order's price, quantity and fee.
   */
  lemma OrderReplySpec(x: Exchange, r: Run<ApiResponse>)
    ensures var c := OrderReply(x, r);
            c.sent == r.sent &&
            (c.reply.Reply? ==> c.reply.status == 200 || c.reply.status == 500) &&
            (c.reply.Reply? && c.reply.status == 500 <==> r.outcome.Ok? && IsError(r.outcome.value)) &&
            (r.outcome.Ok? && IsError(r.outcome.value) ==> c.reply == ErrorReply(r.outcome.value.error.value))
    ensures var c := OrderReply(x, r);
            c.reply == Reply(200, JObj([])) <==>
              r.outcome.Ok? && !IsError(r.outcome.value) &&
              var items := ListItems(r.outcome.value.data);
              items.Some? && items.value != [] && items.value[0].JObj? &&
              Lookup(items.value[0].fields, "orderStatus").Some? &&
              Lookup(items.value[0].fields, "orderStatus").value != JStr("Filled")
    ensures var c := OrderReply(x, r);
            c.reply.Reply? && c.reply.status == 200 && c.reply != Reply(200, JObj([])) ==>
              r.outcome.Ok? && !IsError(r.outcome.value) &&
              var items := ListItems(r.outcome.value.data);
              items.Some? && items.value != [] && items.value[0].JObj? &&
              var order := items.value[0].fields;
              Lookup(order, "orderStatus") == Some(JStr("Filled")) &&
              c.reply.body.JObj? && |c.reply.body.fields| == 3 &&
              Lookup(order, "cumExecValue").Some? && Lookup(order, "cumExecQty").Some? &&
              x.fillPrice(Lookup(order, "cumExecValue").value, Lookup(order, "cumExecQty").value).Ok? &&
              c.reply.body.fields[0] ==
                ("price", JStr(x.fillPrice(Lookup(order, "cumExecValue").value, Lookup(order, "cumExecQty").value).value)) &&
              c.reply.body.fields[1] == ("size", Lookup(order, "cumExecQty").value) &&
              c.reply.body.fields[2] == ("fee", Lookup(order, "cumExecFee").value)
  {}

  // ---------------------------------------------------------------------------
  // __get_positions
  // ---------------------------------------------------------------------------

  /** The query parameters: the symbol without hyphens, only when a symbol is given. */
  function PositionsParams(symbol: Json): Result<seq<(string, Json)>, PyError> {
    if symbol.JNull? then Ok([])
    else
      match AsStr(symbol, "replace")
      case Err(e) => Err(e)
      case Ok(s) => Ok([("symbol", JStr(RemoveChar(s, '-')))])
  }

  /** The signed positions query. */
  function PositionsRequest(dex: MufexDex, x: Exchange, sent: seq<Request>, params: seq<(string, Json)>): Request {
    HttpGet(dex.http + "/private/v1/account/positions", params,
            Some(SignedHeaders(dex.apiKey, GenerateSignature(dex, x, sent, UrlEncode(x, params), ""), false)))
  }

  /** `{"symbol": p["symbol"], "size": p["size"], "side": p["side"]}`. */
  function Project(p: Json): (r: Result<Json, PyError>)
    ensures r.Ok? <==> Subscript(p, "symbol").Ok? && Subscript(p, "size").Ok? && Subscript(p, "side").Ok?
    ensures r.Ok? ==> r.value == JObj([("symbol", Subscript(p, "symbol").value), ("size", Subscript(p, "size").value),
                                       ("side", Subscript(p, "side").value)])
  {
    match Subscript(p, "symbol")
    case Err(e) => Err(e)
    case Ok(symbol) =>
      match Subscript(p, "size")
      case Err(e) => Err(e)
      case Ok(size) =>
        match Subscript(p, "side")
        case Err(e) => Err(e)
        case Ok(side) => Ok(JObj([("symbol", symbol), ("size", size), ("side", side)]))
  }

  /**
   * The projection of every position, in order; the first position that cannot be
   * projected raises.
   */
  function Extract(positions: seq<Json>): (r: Result<seq<Json>, PyError>)
    ensures r.Ok? <==> forall i :: 0 <= i < |positions| ==> Project(positions[i]).Ok?
    ensures r.Ok? ==> |r.value| == |positions| && forall i :: 0 <= i < |positions| ==> Project(positions[i]) == Ok(r.value[i])
    decreases |positions|
  {
    if positions == [] then Ok([])
    else
      var init := positions[..|positions| - 1];
      assert forall i :: 0 <= i < |init| ==> init[i] == positions[i];
      match Extract(init)
      case Err(e) => Err(e)
      case Ok(done) =>
        match Project(positions[|positions| - 1])
        case Err(e) => Err(e)
        case Ok(p) => Ok(done + [p])
  }

  /** The error raised is the first position's that cannot be projected. */
  lemma {:induction false} ExtractFirstError(positions: seq<Json>, i: nat)
    requires i < |positions| && Project(positions[i]).Err?
    requires forall j :: 0 <= j < i ==> Project(positions[j]).Ok?
    ensures Extract(positions) == Err(Project(positions[i]).error)
    decreases |positions|
  {
    var n := |positions|;
    var init := positions[..n - 1];
    if i < n - 1 {
      assert init[i] == positions[i];
      assert forall j :: 0 <= j < i ==> init[j] == positions[j];
      ExtractFirstError(init, i);
    } else {
      assert forall j :: 0 <= j < |init| ==> init[j] == positions[j];
    }
  }

  /** Projecting one more position extends the extracted prefix by its projection. */
  lemma ExtractSnoc(positions: seq<Json>, i: nat)
    requires i < |positions| && Extract(positions[..i]).Ok? && Project(positions[i]).Ok?
    ensures Extract(positions[..i + 1]) == Ok(Extract(positions[..i]).value + [Project(positions[i]).value])
  {
    var next := positions[..i + 1];
    assert next[..|next| - 1] == positions[..i];
  }

  /** A position that cannot be projected after a prefix that can raises its own error. */
  lemma ExtractStops(positions: seq<Json>, i: nat)
    requires i < |positions| && Extract(positions[..i]).Ok? && Project(positions[i]).Err?
    ensures Extract(positions) == Err(Project(positions[i]).error)
  {
    var prefix := positions[..i];
    assert forall j :: 0 <= j < i ==> prefix[j] == positions[j];
    ExtractFirstError(positions, i);
  }

  /** The `for position in positions` loop of `__get_positions`. */
  method ExtractPositions(positions: seq<Json>) returns (r: Result<seq<Json>, PyError>)
    ensures r == Extract(positions)
  {
    var extracted: seq<Json> := [];
    var i := 0;
    while i < |positions|
      invariant 0 <= i <= |positions|
      invariant Extract(positions[..i]) == Ok(extracted)
    {
      var p := Project(positions[i]);
      if p.Err? {
        ExtractStops(positions, i);
        return Err(p.error);
      }
      ExtractSnoc(positions, i);
      extracted := extracted + [p.value];
      i := i + 1;
    }
    assert positions[..i] == positions;
    return Ok(extracted);
  }

  /** `data['data']["list"]`, iterated and projected. */
  function ReadPositions(data: Json): Result<seq<Json>, PyError> {
    match Subscript(data, "data")
    case Err(e) => Err(e)
    case Ok(d) =>
      match Subscript(d, "list")
      case Err(e) => Err(e)
      case Ok(list) =>
        match Iter(list)
        case Err(e) => Err(e)
        case Ok(items) => Extract(items)
  }

  /** A decoded list comes back with the same length and order, each element reduced to its symbol, size and side. */
  lemma ReadPositionsSpec(data: Json, items: seq<Json>)
    requires Subscript(data, "data").Ok? && Subscript(Subscript(data, "data").value, "list") == Ok(JList(items))
    ensures var r := ReadPositions(data);
            (r.Ok? <==> forall i :: 0 <= i < |items| ==> Project(items[i]).Ok?) &&
            (r.Ok? ==> |r.value| == |items| && forall i :: 0 <= i < |items| ==> Project(items[i]) == Ok(r.value[i]))
  {}

  /** `__get_positions(symbol)`. */
  function Positions(dex: MufexDex, x: Exchange, symbol: Json, sent: seq<Request>): Run<ApiResponse> {
    match PositionsParams(symbol)
    case Err(e) => Run(Err(e), sent)
    case Ok(params) =>
      var req := PositionsRequest(dex, x, sent, params);
      var resp := Send(x, sent, req);
      if IsError(resp) then Run(Ok(resp), sent + [req])
      else
        match CodeError(x, resp.data, "")
        case Err(e) => Run(Err(e), sent + [req])
        case Ok(Some(m)) => Run(Ok(ApiResponse(JNull, Some(m))), sent + [req])
        case Ok(None) =>
          match ReadPositions(resp.data)
          case Err(e) => Run(Err(e), sent + [req])
          case Ok(extracted) => Run(Ok(ApiResponse(JList(extracted), None)), sent + [req])
  }

  /** The positions query is signed, and its only parameter is a `symbol` without hyphens. */
  lemma PositionsRequestAuthentic(dex: MufexDex, x: Exchange, sent: seq<Request>, params: seq<(string, Json)>)
    requires forall k, v :: (k, v) in params ==> k == "symbol" && v.JStr? && '-' !in v.s
    ensures var req := PositionsRequest(dex, x, sent, params);
            Authentic(x, dex.apiSecret, req) && req.params == params
  {
    SignedHeadersCheck(dex, x, sent, UrlEncode(x, params), "", false);
  }

  /** The symbol is sent without hyphens, and only when one is given. */
  lemma PositionsParamsSpec(symbol: Json)
    ensures symbol.JNull? ==> PositionsParams(symbol) == Ok([])
    ensures symbol.JStr? ==> PositionsParams(symbol) == Ok([("symbol", JStr(RemoveChar(symbol.s, '-')))])
    ensures PositionsParams(symbol).Ok? ==>
              forall k, v :: (k, v) in PositionsParams(symbol).value ==> k == "symbol" && v.JStr? && '-' !in v.s
    ensures !symbol.JNull? && !symbol.JStr? ==> PositionsParams(symbol).Err?
  {}

  /**
   * Once the parameters are built, exactly one query is sent; with a zero code the
   * positions read from the response are returned.
   */
  lemma PositionsSends(dex: MufexDex, x: Exchange, symbol: Json, sent: seq<Request>)
    requires PositionsParams(symbol).Ok?
    ensures var r := Positions(dex, x, symbol, sent);
            var req := PositionsRequest(dex, x, sent, PositionsParams(symbol).value);
            var resp := Send(x, sent, req);
            r.sent == sent + [req] &&
            (IsError(resp) ==> r.outcome == Ok(resp)) &&
            (!IsError(resp) && CodeError(x, resp.data, "").Ok? && CodeError(x, resp.data, "").value.Some? ==>
               r.outcome == Ok(ApiResponse(JNull, CodeError(x, resp.data, "").value))) &&
            (!IsError(resp) && CodeError(x, resp.data, "") == Ok(None) && ReadPositions(resp.data).Ok? ==>
               r.outcome == Ok(ApiResponse(JList(ReadPositions(resp.data).value), None)))
  {}

  /** The `__get_positions` method: the query, the checks, and the extraction loop. */
  method GetPositions(dex: MufexDex, x: Exchange, symbol: Json, sent: seq<Request>) returns (r: Run<ApiResponse>)
    ensures r == Positions(dex, x, symbol, sent)
  {
    var params := PositionsParams(symbol);
    if params.Err? {
      return Run(Err(params.error), sent);
    }
    var req := PositionsRequest(dex, x, sent, params.value);
    var response := Send(x, sent, req);
    var log := sent + [req];
    if IsError(response) {
      return Run(Ok(response), log);
    }
    var code := CodeError(x, response.data, "");
    if code.Err? {
      return Run(Err(code.error), log);
    }
    if code.value.Some? {
      return Run(Ok(ApiResponse(JNull, code.value)), log);
    }
    var data := Subscript(response.data, "data");
    if data.Err? {
      return Run(Err(data.error), log);
    }
    var list := Subscript(data.value, "list");
    if list.Err? {
      return Run(Err(list.error), log);
    }
    var items := Iter(list.value);
    if items.Err? {
      return Run(Err(items.error), log);
    }
    var extracted := ExtractPositions(items.value);
    if extracted.Err? {
      return Run(Err(extracted.error), log);
    }
    return Run(Ok(ApiResponse(JList(extracted.value), None)), log);
  }

  // ---------------------------------------------------------------------------
  // close_all_positions
  // ---------------------------------------------------------------------------

  /** `float(j) == 0.0`, judged on the exact decimal value. */
  function FloatIsZero(j: Json): Result<bool, PyError> {
    match j
    case JInt(i) => Ok(i == 0)
    case JBool(b) => Ok(!b)
    case JStr(s) =>
      (match ParseDecimal(s)
       case Some(d) => Ok(d.coef == 0)
       case None => Err(ValueError("could not convert string to float: '" + s + "'")))
    case _ => Err(TypeError("float() argument must be a string or a real number, not '" + TypeName(j) + "'"))
  }

  /** `float(position['size']) == 0.0`. */
  function SizeIsZero(p: Json): Result<bool, PyError> {
    match Subscript(p, "size")
    case Err(e) => Err(e)
    case Ok(size) => FloatIsZero(size)
  }

  /** `position['symbol'], position['size'], position['side']`, the arguments of the closing order. */
  function CloseArgs(p: Json): Result<(Json, Json, Json), PyError> {
    match Subscript(p, "symbol")
    case Err(e) => Err(e)
    case Ok(symbol) =>
      match Subscript(p, "size")
      case Err(e) => Err(e)
      case Ok(size) =>
        match Subscript(p, "side")
        case Err(e) => Err(e)
        case Ok(side) => Ok((symbol, size, side))
  }

  /** How one position is closed: an order given its symbol, size and side, after the requests sent so far. */
  type Closer = (Json, Json, Json, seq<Request>) -> Run<ApiResponse>

  /** `__create_order_internal(symbol, size, side, None, reverse=True)`. */
  function ReverseOrder(dex: MufexDex, x: Exchange): Closer {
    (symbol, size, side, sent) => CreateOrderInternal(dex, x, symbol, size, side, JNull, true, sent)
  }

  /**
   * The loop from position `i` on: the reply, the requests sent, the positions a
   * closing order was submitted for, and the response each submission returned.
   */
  datatype CloseRun = CloseRun(reply: HttpReply, sent: seq<Request>, submitted: seq<nat>, results: seq<ApiResponse>)

  function CloseFrom(close: Closer, positions: seq<Json>, i: nat, sent: seq<Request>): CloseRun
    decreases |positions| - i
  {
    if i >= |positions| then CloseRun(Reply(200, JObj([])), sent, [], [])
    else
      match SizeIsZero(positions[i])
      case Err(e) => CloseRun(Crash(e), sent, [], [])
      case Ok(true) => CloseFrom(close, positions, i + 1, sent)
      case Ok(false) =>
        match CloseArgs(positions[i])
        case Err(e) => CloseRun(Crash(e), sent, [], [])
        case Ok(args) =>
          var r := close(args.0, args.1, args.2, sent);
          match r.outcome
          case Err(e) => CloseRun(Crash(e), r.sent, [i], [])
          case Ok(resp) =>
            if IsError(resp) then CloseRun(ErrorReply(resp.error.value), r.sent, [i], [resp])
            else
              var rest := CloseFrom(close, positions, i + 1, r.sent);
              CloseRun(rest.reply, rest.sent, [i] + rest.submitted, [resp] + rest.results)
  }

  /** The positions from `i` on whose size is readable and not zero, in list order. */
  function NonZeroFrom(positions: seq<Json>, i: nat): seq<nat>
    decreases |positions| - i
  {
    if i >= |positions| then []
    else if SizeIsZero(positions[i]) == Ok(false) then [i] + NonZeroFrom(positions, i + 1)
    else NonZeroFrom(positions, i + 1)
  }

  /**
   * Orders are submitted in list order, only for nonzero positions, with one
   * result per submission except a last one that raised, after which nothing
   * more is submitted; a reply (rather than an exception) has a result for every submission.
   */
  lemma {:induction false} CloseFromSubmits(close: Closer, positions: seq<Json>, i: nat, sent: seq<Request>)
    ensures var c := CloseFrom(close, positions, i, sent);
            c.submitted <= NonZeroFrom(positions, i) && |c.results| <= |c.submitted| <= |c.results| + 1 &&
            (c.reply.Reply? ==> |c.submitted| == |c.results|)
    decreases |positions| - i
  {
    if i < |positions| {
      CloseFromSubmits(close, positions, i + 1, sent);
      if SizeIsZero(positions[i]) == Ok(false) && CloseArgs(positions[i]).Ok? {
        var args := CloseArgs(positions[i]).value;
        CloseFromSubmits(close, positions, i + 1, close(args.0, args.1, args.2, sent).sent);
      }
    }
  }

  /** Every submission but the last succeeded: the loop goes on only after a response without error. */
  lemma {:induction false} CloseFromStopsAtError(close: Closer, positions: seq<Json>, i: nat, sent: seq<Request>)
    ensures forall j :: 0 <= j < |CloseFrom(close, positions, i, sent).results| - 1 ==>
                          !IsError(CloseFrom(close, positions, i, sent).results[j])
    decreases |positions| - i
  {
    if i < |positions| {
      if SizeIsZero(positions[i]) == Ok(true) {
        CloseFromStopsAtError(close, positions, i + 1, sent);
      } else if SizeIsZero(positions[i]) == Ok(false) && CloseArgs(positions[i]).Ok? {
        var args := CloseArgs(positions[i]).value;
        var r := close(args.0, args.1, args.2, sent);
        CloseFromStopsAtError(close, positions, i + 1, r.sent);
        if r.outcome.Ok? && !IsError(r.outcome.value) {
          var rest := CloseFrom(close, positions, i + 1, r.sent);
          var c := CloseFrom(close, positions, i, sent);
          assert c.results == [r.outcome.value] + rest.results;
          forall j | 0 <= j < |c.results| - 1
            ensures !IsError(c.results[j])
          {
            if j > 0 {
              assert c.results[j] == rest.results[j - 1];
            }
          }
        }
      }
    }
  }

  /**
   * The log after the closing orders for the positions `ks` are submitted in
   * turn, each seeing the requests of the ones before it.
   */
  function SentBy(close: Closer, positions: seq<Json>, ks: seq<nat>, sent: seq<Request>): seq<Request>
    decreases |ks|
  {
    if ks == [] || ks[0] >= |positions| then sent
    else
      match CloseArgs(positions[ks[0]])
      case Err(_) => sent
      case Ok(args) => SentBy(close, positions, ks[1..], close(args.0, args.1, args.2, sent).sent)
  }

  /**
   * The loop sends nothing of its own: the log it ends with is the one its
   * submissions produce in turn, so nothing is sent after the last (and, by
   * `CloseFromStopsAtError`, failing) submission.
   */
  lemma {:induction false} CloseFromSends(close: Closer, positions: seq<Json>, i: nat, sent: seq<Request>)
    ensures CloseFrom(close, positions, i, sent).sent == SentBy(close, positions, CloseFrom(close, positions, i, sent).submitted, sent)
    decreases |positions| - i
  {
    if i < |positions| {
      if SizeIsZero(positions[i]) == Ok(true) {
        CloseFromSends(close, positions, i + 1, sent);
      } else if SizeIsZero(positions[i]) == Ok(false) && CloseArgs(positions[i]).Ok? {
        var args := CloseArgs(positions[i]).value;
        var r := close(args.0, args.1, args.2, sent);
        CloseFromSends(close, positions, i + 1, r.sent);
        var c := CloseFrom(close, positions, i, sent);
        if r.outcome.Ok? && !IsError(r.outcome.value) {
          var rest := CloseFrom(close, positions, i + 1, r.sent);
          assert c.submitted == [i] + rest.submitted && c.sent == rest.sent;
          assert c.submitted[1..] == rest.submitted;
        } else {
          assert c.submitted == [i] && c.sent == r.sent;
          assert c.submitted[1..] == [];
        }
      }
    }
  }

  /** A 500 reply comes from a failing last submission, with its error text. */
  lemma {:induction false} CloseFromErrorReply(close: Closer, positions: seq<Json>, i: nat, sent: seq<Request>)
    ensures var c := CloseFrom(close, positions, i, sent);
            c.reply.Reply? && c.reply.status == 500 ==>
              |c.results| > 0 && IsError(c.results[|c.results| - 1]) &&
              c.reply == ErrorReply(c.results[|c.results| - 1].error.value)
    decreases |positions| - i
  {
    if i < |positions| {
      CloseFromErrorReply(close, positions, i + 1, sent);
      if SizeIsZero(positions[i]) == Ok(false) && CloseArgs(positions[i]).Ok? {
        var args := CloseArgs(positions[i]).value;
        var r := close(args.0, args.1, args.2, sent);
        CloseFromErrorReply(close, positions, i + 1, r.sent);
        if r.outcome.Ok? && !IsError(r.outcome.value) {
          var rest := CloseFrom(close, positions, i + 1, r.sent);
          var c := CloseFrom(close, positions, i, sent);
          assert c.reply == rest.reply && c.results == [r.outcome.value] + rest.results;
          if |rest.results| > 0 {
            assert c.results[|c.results| - 1] == rest.results[|rest.results| - 1];
          }
        }
      }
    }
  }

  /** A failing response ends the loop: nothing is submitted after it, and the reply is its error text. */
  lemma {:induction false} CloseFromErrorLast(close: Closer, positions: seq<Json>, i: nat, sent: seq<Request>)
    ensures var c := CloseFrom(close, positions, i, sent);
            |c.results| > 0 && IsError(c.results[|c.results| - 1]) ==>
              |c.submitted| == |c.results| && c.reply == ErrorReply(c.results[|c.results| - 1].error.value)
    decreases |positions| - i
  {
    if i < |positions| {
      if SizeIsZero(positions[i]) == Ok(true) {
        CloseFromErrorLast(close, positions, i + 1, sent);
      } else if SizeIsZero(positions[i]) == Ok(false) && CloseArgs(positions[i]).Ok? {
        var args := CloseArgs(positions[i]).value;
        var r := close(args.0, args.1, args.2, sent);
        if r.outcome.Ok? && !IsError(r.outcome.value) {
          CloseFromErrorLast(close, positions, i + 1, r.sent);
          var rest := CloseFrom(close, positions, i + 1, r.sent);
          var c := CloseFrom(close, positions, i, sent);
          assert c.reply == rest.reply && c.submitted == [i] + rest.submitted && c.results == [r.outcome.value] + rest.results;
          if |rest.results| > 0 {
            assert c.results[|c.results| - 1] == rest.results[|rest.results| - 1];
          }
        }
      }
    }
  }

  /** An empty 200 reply means every nonzero position was submitted and no submission failed. */
  lemma {:induction false} CloseFromCompletes(close: Closer, positions: seq<Json>, i: nat, sent: seq<Request>)
    ensures var c := CloseFrom(close, positions, i, sent);
            c.reply == Reply(200, JObj([])) ==>
              c.submitted == NonZeroFrom(positions, i) && |c.results| == |c.submitted| &&
              forall j :: 0 <= j < |c.results| ==> !IsError(c.results[j])
    decreases |positions| - i
  {
    if i < |positions| {
      CloseFromCompletes(close, positions, i + 1, sent);
      if SizeIsZero(positions[i]) == Ok(false) && CloseArgs(positions[i]).Ok? {
        var args := CloseArgs(positions[i]).value;
        var r := close(args.0, args.1, args.2, sent);
        CloseFromCompletes(close, positions, i + 1, r.sent);
        if r.outcome.Ok? && !IsError(r.outcome.value) {
          var rest := CloseFrom(close, positions, i + 1, r.sent);
          var c := CloseFrom(close, positions, i, sent);
          assert c.results == [r.outcome.value] + rest.results;
          assert forall j :: 1 <= j < |c.results| ==> c.results[j] == rest.results[j - 1];
        }
      }
    }
  }

  /** `close_all_positions(close_symbol)`. */
  function CloseAll(dex: MufexDex, x: Exchange, closeSymbol: Json, sent: seq<Request>): Exchanged {
    var r := Positions(dex, x, closeSymbol, sent);
    match r.outcome
    case Err(e) => Exchanged(Crash(e), r.sent)
    case Ok(resp) =>
      if IsError(resp) then Exchanged(ErrorReply(resp.error.value), r.sent)
      else
        match Iter(resp.data)
        case Err(e) => Exchanged(Crash(e), r.sent)
        case Ok(items) =>
          var c := CloseFrom(ReverseOrder(dex, x), items, 0, r.sent);
          Exchanged(c.reply, c.sent)
  }

  /** The `close_all_positions` method: list the positions, then close each nonzero one with a reversed order. */
  method CloseAllPositions(dex: MufexDex, x: Exchange, closeSymbol: Json, sent: seq<Request>) returns (e: Exchanged)
    ensures e == CloseAll(dex, x, closeSymbol, sent)
  {
    var r := GetPositions(dex, x, closeSymbol, sent);
    if r.outcome.Err? {
      return Exchanged(Crash(r.outcome.error), r.sent);
    }
    var response := r.outcome.value;
    if IsError(response) {
      return Exchanged(ErrorReply(response.error.value), r.sent);
    }
    var iter := Iter(response.data);
    if iter.Err? {
      return Exchanged(Crash(iter.error), r.sent);
    }
    var positions := iter.value;
    ghost var close := ReverseOrder(dex, x);
    ghost var whole := CloseFrom(close, positions, 0, r.sent);
    var log := r.sent;
    var i := 0;
    while i < |positions|
      invariant 0 <= i <= |positions|
      invariant CloseFrom(close, positions, i, log).reply == whole.reply
      invariant CloseFrom(close, positions, i, log).sent == whole.sent
    {
      var zero := SizeIsZero(positions[i]);
      if zero.Err? {
        return Exchanged(Crash(zero.error), log);
      }
      if zero.value {
        i := i + 1;
        continue;
      }
      var args := CloseArgs(positions[i]);
      if args.Err? {
        return Exchanged(Crash(args.error), log);
      }
      var run := CreateOrderInternal(dex, x, args.value.0, args.value.1, args.value.2, JNull, true, log);
      assert run == close(args.value.0, args.value.1, args.value.2, log);
      if run.outcome.Err? {
        return Exchanged(Crash(run.outcome.error), run.sent);
      }
      if IsError(run.outcome.value) {
        return Exchanged(ErrorReply(run.outcome.value.error.value), run.sent);
      }
      log := run.sent;
      i := i + 1;
    }
    return Exchanged(Reply(200, JObj([])), log);
  }
}
