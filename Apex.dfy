/**
 * The ApeX adapter (`dex/apex.py`): reading the encrypted credentials, the
 * ticker classification, yesterday's PnL, and the order path with its contract
 * lookup. The `apexpro` client and the HTTP call are parameters.
 */
module Apex {
  import opened Wrappers
  import opened Text
  import opened PyJson
  import opened KmsDecrypt
  import opened EnvConfig

  // ---------------------------------------------------------------------------
  // get_decrypted_env
  // ---------------------------------------------------------------------------

  /**
   * `get_decrypted_env(name)`: `None` unless both the encrypted data key and
   * `ENCRYPTED_<name>` are set and not empty; otherwise their decryption, as hex
   * for a name containing "STARK_". An exception of the decryption escapes.
   */
  function GetDecryptedEnv(environ: string -> Option<string>, kms: Kms, name: string): (r: Result<Option<string>, PyError>)
    ensures !(Given(environ("ENCRYPTED_DATA_KEY")) && Given(environ("ENCRYPTED_" + name))) ==> r == Ok(None)
    ensures r.Ok? && r.value.Some? ==> Given(environ("ENCRYPTED_DATA_KEY")) && Given(environ("ENCRYPTED_" + name))
  {
    var key := environ("ENCRYPTED_DATA_KEY");
    var data := environ("ENCRYPTED_" + name);
    if Given(key) && Given(data) then
      match DecryptDataWithKms(environ, kms, key, data, ContainsSubstring(name, "STARK_"))
      case Err(e) => Err(e)
      case Ok(v) => Ok(Some(v))
    else Ok(None)
  }

  /**
   * With both inputs set, the value is the decryption of `ENCRYPTED_<name>`, in hex
   * mode exactly when "STARK_" occurs somewhere in the name.
   */
  lemma GetDecryptedEnvDecrypts(environ: string -> Option<string>, kms: Kms, name: string)
    requires Given(environ("ENCRYPTED_DATA_KEY")) && Given(environ("ENCRYPTED_" + name))
    ensures exists isHex: bool ::
              (isHex <==> exists i: nat :: OccursAt("STARK_", name, i)) &&
              var d := DecryptDataWithKms(environ, kms, environ("ENCRYPTED_DATA_KEY"), environ("ENCRYPTED_" + name), isHex);
              (GetDecryptedEnv(environ, kms, name).Ok? <==> d.Ok?) &&
              (d.Ok? ==> GetDecryptedEnv(environ, kms, name) == Ok(Some(d.value)))
  {
    ContainsSubstringSpec(name, "STARK_");
    var isHex := ContainsSubstring(name, "STARK_");
    var d := DecryptDataWithKms(environ, kms, environ("ENCRYPTED_DATA_KEY"), environ("ENCRYPTED_" + name), isHex);
    assert (isHex <==> exists i: nat :: OccursAt("STARK_", name, i)) &&
           (GetDecryptedEnv(environ, kms, name).Ok? <==> d.Ok?) &&
           (d.Ok? ==> GetDecryptedEnv(environ, kms, name) == Ok(Some(d.value)));
  }

  // ---------------------------------------------------------------------------
  // ApexDex.__init__
  // ---------------------------------------------------------------------------

  /** The credentials the constructor reads, in the order the source declares them. */
  const ApexVarNames: seq<string> := ["API_KEY", "API_SECRET", "API_PASSPHRASE", "STARK_PUBLIC_KEY",
                                      "STARK_PUBLIC_KEY_Y_COORDINATE", "STARK_PRIVATE_KEY"]

  /** The values read for `names`, each with the suffix, in order; the first exception escapes. */
  function DecryptAll(environ: string -> Option<string>, kms: Kms, names: seq<string>, suffix: string)
    : (r: Result<seq<Option<string>>, PyError>)
    ensures r.Ok? <==> forall i :: 0 <= i < |names| ==> GetDecryptedEnv(environ, kms, names[i] + suffix).Ok?
    ensures r.Ok? ==> |r.value| == |names| &&
                      forall i :: 0 <= i < |names| ==> GetDecryptedEnv(environ, kms, names[i] + suffix) == Ok(r.value[i])
    ensures r.Err? ==> exists i :: 0 <= i < |names| && GetDecryptedEnv(environ, kms, names[i] + suffix) == Err(r.error) &&
                                    forall j :: 0 <= j < i ==> GetDecryptedEnv(environ, kms, names[j] + suffix).Ok?
    decreases |names|
  {
    if names == [] then Ok([])
    else
      assert forall i :: 1 <= i < |names| ==> names[i] == names[1..][i - 1];
      assert forall i :: 0 <= i < |names| - 1 ==> names[1..][i] == names[i + 1];
      match GetDecryptedEnv(environ, kms, names[0] + suffix)
      case Err(e) => Err(e)
      case Ok(v) =>
        match DecryptAll(environ, kms, names[1..], suffix)
        case Err(e) => Err(e)
        case Ok(rest) => Ok([v] + rest)
  }

  /** The `apexpro` constants the constructor chooses between. */
  datatype ApexNetwork = ApexNetwork(httpMain: string, httpTest: string, networkMain: int, networkTest: int)

  /** An `ApexDex`'s settings: the six credentials, the base URL and the network id. */
  datatype ApexDex = ApexDex(apiKey: string, apiSecret: string, apiPassphrase: string,
                             starkPublicKey: string, starkPublicKeyY: string, starkPrivateKey: string,
                             http: string, networkId: int)

  /** `ApexDex(env_mode)` as far as the settings go, before the client is built. */
  function ApexInit(environ: string -> Option<string>, kms: Kms, envMode: string, net: ApexNetwork)
    : Result<ApexDex, PyError>
  {
    match DecryptAll(environ, kms, ApexVarNames, Suffix(envMode))
    case Err(e) => Err(e)
    case Ok(values) =>
      var vars := Pair(ApexVarNames, values);
      var missing := MissingVars(vars);
      if missing != [] then Err(EnvironmentError(MissingMessage(missing)))
      else
        assert vars[0].1.Some? && vars[1].1.Some? && vars[2].1.Some? && vars[3].1.Some? && vars[4].1.Some? && vars[5].1.Some?;
        var mainnet := envMode == "MAINNET";
        Ok(ApexDex(values[0].value, values[1].value, values[2].value, values[3].value, values[4].value, values[5].value,
                   if mainnet then net.httpMain else net.httpTest,
                   if mainnet then net.networkMain else net.networkTest))
  }

  /**
   * The constructor fails with EnvironmentError exactly when the six values can
   * be read but some are unset, and the error names those and only those, in
   * declaration order; it succeeds exactly when all six are set.
   */
  lemma ApexInitMissing(environ: string -> Option<string>, kms: Kms, envMode: string, net: ApexNetwork)
    requires DecryptAll(environ, kms, ApexVarNames, Suffix(envMode)).Ok?
    ensures var values := DecryptAll(environ, kms, ApexVarNames, Suffix(envMode)).value;
            var r := ApexInit(environ, kms, envMode, net);
            (r.Ok? <==> forall i :: 0 <= i < |values| ==> values[i].Some?) &&
            (r.Err? ==> r.error == EnvironmentError(MissingMessage(MissingVars(Pair(ApexVarNames, values))))) &&
            (forall n :: n in MissingVars(Pair(ApexVarNames, values)) <==>
                         exists i :: 0 <= i < |values| && ApexVarNames[i] == n && values[i].None?)
  {
    var values := DecryptAll(environ, kms, ApexVarNames, Suffix(envMode)).value;
    MissingPairs(ApexVarNames, values);
    var missing := MissingVars(Pair(ApexVarNames, values));
    var r := ApexInit(environ, kms, envMode, net);
    if r.Err? {
      assert r.error == EnvironmentError(MissingMessage(missing));
    }
  }

  /**
   * A built adapter holds the values read for the six names with the mode's
   * suffix, each in its own field, and the mainnet URL and network id exactly in
   * MAINNET mode.
   */
  lemma ApexInitSettings(environ: string -> Option<string>, kms: Kms, envMode: string, net: ApexNetwork)
    requires ApexInit(environ, kms, envMode, net).Ok?
    ensures var d := ApexInit(environ, kms, envMode, net).value;
            var s := Suffix(envMode);
            GetDecryptedEnv(environ, kms, "API_KEY" + s) == Ok(Some(d.apiKey)) &&
            GetDecryptedEnv(environ, kms, "API_SECRET" + s) == Ok(Some(d.apiSecret)) &&
            GetDecryptedEnv(environ, kms, "API_PASSPHRASE" + s) == Ok(Some(d.apiPassphrase)) &&
            GetDecryptedEnv(environ, kms, "STARK_PUBLIC_KEY" + s) == Ok(Some(d.starkPublicKey)) &&
            GetDecryptedEnv(environ, kms, "STARK_PUBLIC_KEY_Y_COORDINATE" + s) == Ok(Some(d.starkPublicKeyY)) &&
            GetDecryptedEnv(environ, kms, "STARK_PRIVATE_KEY" + s) == Ok(Some(d.starkPrivateKey))
    ensures var d := ApexInit(environ, kms, envMode, net).value;
            (envMode == "MAINNET" ==> d.http == net.httpMain && d.networkId == net.networkMain) &&
            (envMode != "MAINNET" ==> d.http == net.httpTest && d.networkId == net.networkTest)
  {
    var values := DecryptAll(environ, kms, ApexVarNames, Suffix(envMode)).value;
    MissingPairs(ApexVarNames, values);
    assert forall i :: 0 <= i < 6 ==> values[i].Some?;
    var d := ApexInit(environ, kms, envMode, net).value;
    assert d == ApexDex(values[0].value, values[1].value, values[2].value, values[3].value, values[4].value, values[5].value,
                        d.http, d.networkId);
  }

  // ---------------------------------------------------------------------------
  // get_ticker
  // ---------------------------------------------------------------------------

  /**
   * How `requests.get(...)`, `raise_for_status()` and `response.json()` end: a
   * decoded body; a JSONDecodeError, with the status code and text of the response
   * it carries when it carries one; or any other exception, with its text.
   */
  datatype Fetched = Decoded(ret: Json) | Undecodable(response: Option<(int, string)>) | Failed(message: string)

  /** `{'result': 'Err', 'message': message}` with a status. */
  function ErrReply(status: int, message: string): HttpReply {
    Reply(status, JObj([("result", JStr("Err")), ("message", JStr(message))]))
  }

  /** The ticker query for a symbol: `{'symbol': symbol_without_hyphen}`. */
  function TickerParams(symbol: string): seq<(string, Json)> {
    [("symbol", JStr(RemoveChar(symbol, '-')))]
  }

  /** The 500 reply built from the JSONDecodeError. */
  function DecodeErrorReply(response: Option<(int, string)>): HttpReply {
    var status := if response.Some? then IntToString(response.value.0) else "No status code";
    var content := if response.Some? then response.value.1 else "No content";
    ErrReply(500, "Could not decode JSON, HTTP Status Code: " + status + ", Content: " + content)
  }

  /** The classification of a decoded ticker body; an exception raised on the way is an `Err`. */
  function ClassifyTicker(symbol: string, ret: Json): Result<HttpReply, PyError> {
    match In("data", ret)
    case Err(e) => Err(e)
    case Ok(hasData) =>
      if !hasData then Ok(ErrReply(400, "Data is missing in the response"))
      else
        match Subscript(ret, "data")
        case Err(e) => Err(e)
        case Ok(data) =>
          if !Truthy(data) then Ok(ErrReply(400, "Data is missing in the response"))
          else
            match Index0(data)
            case Err(e) => Err(e)
            case Ok(first) =>
              match In("lastPrice", first)
              case Err(e) => Err(e)
              case Ok(hasPrice) =>
                if !hasPrice then Ok(ErrReply(400, "lastPrice information is missing in the response"))
                else
                  match Subscript(first, "lastPrice")
                  case Err(e) => Err(e)
                  case Ok(price) => Ok(Reply(200, JObj([("result", JStr("Ok")), ("symbol", JStr(symbol)), ("price", price)])))
  }

  /** `get_ticker(symbol)`, given how the query to `<http>/api/v1/ticker` ends. */
  function GetTicker(dex: ApexDex, fetch: (string, seq<(string, Json)>) -> Fetched, symbol: string): HttpReply {
    match fetch(dex.http + "/api/v1/ticker", TickerParams(symbol))
    case Undecodable(response) => DecodeErrorReply(response)
    case Failed(message) => ErrReply(500, message)
    case Decoded(ret) =>
      match ClassifyTicker(symbol, ret)
      case Err(e) => ErrReply(500, Str(e))
      case Ok(reply) => reply
  }

  /** The query carries the symbol without hyphens. */
  lemma TickerParamsSpec(symbol: string)
    ensures var p := TickerParams(symbol);
            |p| == 1 && p[0].0 == "symbol" && p[0].1.JStr? && '-' !in p[0].1.s &&
            multiset(p[0].1.s) == multiset(symbol)['-' := 0]
  {}

  /**
   * A ticker object whose `data` is a non-empty list gives 200 with the price and
   * the symbol as requested (hyphens kept) when its first item has `lastPrice`,
   * 400 when it has not; a missing, empty or false `data` gives 400.
   */
  lemma ClassifyTickerObject(symbol: string, fields: seq<(string, Json)>)
    ensures var r := ClassifyTicker(symbol, JObj(fields));
            var data := Lookup(fields, "data");
            (data.None? || !Truthy(data.value) ==> r == Ok(ErrReply(400, "Data is missing in the response"))) &&
            (data.Some? && data.value.JList? && data.value.items != [] && data.value.items[0].JObj? ==>
               var first := data.value.items[0].fields;
               (Lookup(first, "lastPrice").Some? ==>
                  r == Ok(Reply(200, JObj([("result", JStr("Ok")), ("symbol", JStr(symbol)), ("price", Lookup(first, "lastPrice").value)])))) &&
               (Lookup(first, "lastPrice").None? ==> r == Ok(ErrReply(400, "lastPrice information is missing in the response"))))
  {}

  /**
   * The reply is 200 only with a decoded body whose price is found; every
   * exception, inside the classification or from the call, gives 500 with its text,
   * and a body that is not JSON gives 500 naming the status and the content.
   */
  lemma GetTickerReplies(dex: ApexDex, fetch: (string, seq<(string, Json)>) -> Fetched, symbol: string)
    ensures var f := fetch(dex.http + "/api/v1/ticker", TickerParams(symbol));
            var r := GetTicker(dex, fetch, symbol);
            r.Reply? && (r.status == 200 || r.status == 400 || r.status == 500) &&
            (f.Failed? ==> r == ErrReply(500, f.message)) &&
            (f.Undecodable? && f.response.None? ==>
               r == ErrReply(500, "Could not decode JSON, HTTP Status Code: " + "No status code" + ", Content: " + "No content")) &&
            (f.Undecodable? && f.response.Some? ==>
               r == ErrReply(500, "Could not decode JSON, HTTP Status Code: " + IntToString(f.response.value.0) +
                                  ", Content: " + f.response.value.1)) &&
            (f.Decoded? && ClassifyTicker(symbol, f.ret).Err? ==> r == ErrReply(500, Str(ClassifyTicker(symbol, f.ret).error))) &&
            (r.status == 200 ==> f.Decoded?)
  {
    var f := fetch(dex.http + "/api/v1/ticker", TickerParams(symbol));
    if f.Decoded? && ClassifyTicker(symbol, f.ret).Ok? {
      ClassifyTickerStatus(symbol, f.ret);
    }
  }

  /** A classification that does not raise answers 200 or 400. */
  lemma ClassifyTickerStatus(symbol: string, ret: Json)
    requires ClassifyTicker(symbol, ret).Ok?
    ensures var r := ClassifyTicker(symbol, ret).value;
            r.Reply? && (r.status == 200 || r.status == 400)
  {}

  // ---------------------------------------------------------------------------
  // The apexpro client
  // ---------------------------------------------------------------------------

  /** The order `self.client.create_order` is asked to place (a MARKET order; the expiry time is left out). */
  datatype ApexOrder = ApexOrder(symbol: Json, side: Json, size: Json, price: Json, limitFeeRate: Json)

  /** The `apexpro` client calls the adapter makes, and the values it keeps. */
  datatype ApexClient = ApexClient(
    /** `client.get_worst_price(symbol=..., side=..., size=...)`. */
    worstPrice: (Json, Json, Json) -> Result<Json, PyError>,
    /** `client.account`. */
    account: Json,
    /** `self.configs`, read by the constructor. */
    configs: Json,
    /** The `round_size` of `apexpro.helpers.util`. */
    roundSize: (Json, Json) -> Result<Json, PyError>,
    /** `client.create_order(...)`. */
    createOrder: ApexOrder -> Result<Json, PyError>,
    /** `client.yesterday_pnl()`. */
    yesterdayPnl: Result<Json, PyError>)

  // ---------------------------------------------------------------------------
  // get_yesterday_pnl
  // ---------------------------------------------------------------------------

  /** `get_yesterday_pnl()`: nothing is caught, so an exception crashes the view. */
  function GetYesterdayPnl(client: ApexClient): HttpReply {
    match client.yesterdayPnl
    case Err(e) => Crash(e)
    case Ok(ret) =>
      match In("data", ret)
      case Err(e) => Crash(e)
      case Ok(hasData) =>
        if !hasData then Reply(200, JObj([("result", JStr("Err")), ("message", JStr("Data is missing in the response"))]))
        else
          match Subscript(ret, "data")
          case Err(e) => Crash(e)
          case Ok(data) => Reply(200, JObj([("result", JStr("Ok")), ("data", data)]))
  }

  /** For an object: Ok with its `data` exactly when it has that key, an Err body otherwise, both with status 200. */
  lemma GetYesterdayPnlObject(client: ApexClient, fields: seq<(string, Json)>)
    requires client.yesterdayPnl == Ok(JObj(fields))
    ensures var r := GetYesterdayPnl(client);
            r.Reply? && r.status == 200 &&
            (Lookup(fields, "data").Some? ==> r.body == JObj([("result", JStr("Ok")), ("data", Lookup(fields, "data").value)])) &&
            (Lookup(fields, "data").None? ==> r.body == JObj([("result", JStr("Err")), ("message", JStr("Data is missing in the response"))]))
  {}

  // ---------------------------------------------------------------------------
  // create_order
  // ---------------------------------------------------------------------------

  /** `v.get('symbol') == symbol`, for a contract that is an object. */
  predicate Matches(v: Json, symbol: Json) {
    v.JObj? && (match Lookup(v.fields, "symbol") case Some(s) => s case None => JNull) == symbol
  }

  /**
   * The contract the loop settles on: the first entry whose `symbol` equals the
   * requested one, `{}` when none does; `.get` on an entry that is not an object
   * raises before a later entry is looked at.
   */
  function FirstContract(contracts: seq<Json>, symbol: Json): (r: Result<Json, PyError>)
    ensures r.Ok? ==> r.value.JObj?
    decreases |contracts|
  {
    if contracts == [] then Ok(JObj([]))
    else
      match Get(contracts[0], "symbol", JNull)
      case Err(e) => Err(e)
      case Ok(s) => if s == symbol then Ok(contracts[0]) else FirstContract(contracts[1..], symbol)
  }

  /** The first matching contract is found, whatever comes after it. */
  lemma {:induction false} FirstContractFound(contracts: seq<Json>, symbol: Json, i: nat)
    requires i < |contracts| && Matches(contracts[i], symbol)
    requires forall j :: 0 <= j < i ==> contracts[j].JObj? && !Matches(contracts[j], symbol)
    ensures FirstContract(contracts, symbol) == Ok(contracts[i])
    decreases i
  {
    if i > 0 {
      assert contracts[1..][i - 1] == contracts[i];
      assert forall j :: 0 <= j < i - 1 ==> contracts[1..][j] == contracts[j + 1];
      FirstContractFound(contracts[1..], symbol, i - 1);
    }
  }

  /** With no match among objects the result is the empty object. */
  lemma {:induction false} FirstContractAbsent(contracts: seq<Json>, symbol: Json)
    requires forall j :: 0 <= j < |contracts| ==> contracts[j].JObj? && !Matches(contracts[j], symbol)
    ensures FirstContract(contracts, symbol) == Ok(JObj([]))
    decreases |contracts|
  {
    if contracts != [] {
      assert forall j :: 0 <= j < |contracts| - 1 ==> contracts[1..][j] == contracts[j + 1];
      FirstContractAbsent(contracts[1..], symbol);
    }
  }

  /** The `for k, v in enumerate(...)` loop with its `break`. */
  method FindContract(contracts: seq<Json>, symbol: Json) returns (r: Result<Json, PyError>)
    ensures r == FirstContract(contracts, symbol)
  {
    var symbolData := JObj([]);
    for k := 0 to |contracts|
      invariant symbolData == JObj([])
      invariant FirstContract(contracts, symbol) == FirstContract(contracts[k..], symbol)
    {
      assert contracts[k..][1..] == contracts[k + 1..];
      var s := Get(contracts[k], "symbol", JNull);
      if s.Err? {
        return Err(s.error);
      }
      if s.value == symbol {
        symbolData := contracts[k];
        break;
      }
    }
    return Ok(symbolData);
  }

  /** `self.configs.get('data').get('perpetualContract')`, iterated. */
  function Contracts(configs: Json): Result<seq<Json>, PyError> {
    match Get(configs, "data", JNull)
    case Err(e) => Err(e)
    case Ok(data) =>
      match Get(data, "perpetualContract", JNull)
      case Err(e) => Err(e)
      case Ok(list) => Iter(list)
  }

  /** The order placed once the worst price, the fee rate, the contract and the two roundings are known. */
  function PlaceOrder(client: ApexClient, symbol: Json, size: Json, side: Json): Result<ApexOrder, PyError> {
    match client.worstPrice(symbol, side, size)
    case Err(e) => Err(e)
    case Ok(worst) =>
      match Subscript(worst, "data")
      case Err(e) => Err(e)
      case Ok(d) =>
        match Subscript(d, "worstPrice")
        case Err(e) => Err(e)
        case Ok(price) =>
          match Subscript(client.account, "takerFeeRate")
          case Err(e) => Err(e)
          case Ok(feeRate) =>
            match Contracts(client.configs)
            case Err(e) => Err(e)
            case Ok(contracts) =>
              match FirstContract(contracts, symbol)
              case Err(e) => Err(e)
              case Ok(contract) =>
                match client.roundSize(size, Get(contract, "stepSize", JNull).value)
                case Err(e) => Err(e)
                case Ok(roundedSize) =>
                  match client.roundSize(price, Get(contract, "tickSize", JNull).value)
                  case Err(e) => Err(e)
                  case Ok(roundedPrice) => Ok(ApexOrder(symbol, side, roundedSize, roundedPrice, feeRate))
  }

  /** The classification of the response to the order; an exception raised on the way is an `Err`. */
  function ClassifyOrder(ret: Json): Result<HttpReply, PyError> {
    match In("code", ret)
    case Err(e) => Err(e)
    case Ok(hasCode) =>
      if hasCode then
        match Get(ret, "msg", JStr(""))
        case Err(e) => Err(e)
        case Ok(msg) => Ok(Reply(400, JObj([("result", JStr("Err")), ("message", msg)])))
      else
        match Subscript(ret, "data")
        case Err(e) => Err(e)
        case Ok(d) =>
          match Subscript(d, "price")
          case Err(e) => Err(e)
          case Ok(price) =>
            match Subscript(d, "size")
            case Err(e) => Err(e)
            case Ok(size) => Ok(Reply(200, JObj([("result", JStr("Ok")), ("price", price), ("size", size)])))
  }

  /** `create_order(symbol, size, side)`: every exception becomes 500 with its text. */
  function OrderOutcome(client: ApexClient, symbol: Json, size: Json, side: Json): HttpReply {
    match PlaceOrder(client, symbol, size, side)
    case Err(e) => ErrReply(500, Str(e))
    case Ok(order) =>
      match client.createOrder(order)
      case Err(e) => ErrReply(500, Str(e))
      case Ok(ret) =>
        match ClassifyOrder(ret)
        case Err(e) => ErrReply(500, Str(e))
        case Ok(reply) => reply
  }

  /** The `create_order` method, with the contract lookup loop. */
  method CreateOrder(client: ApexClient, symbol: Json, size: Json, side: Json) returns (reply: HttpReply)
    ensures reply == OrderOutcome(client, symbol, size, side)
  {
    var worst := client.worstPrice(symbol, side, size);
    if worst.Err? { return ErrReply(500, Str(worst.error)); }
    var d := Subscript(worst.value, "data");
    if d.Err? { return ErrReply(500, Str(d.error)); }
    var price := Subscript(d.value, "worstPrice");
    if price.Err? { return ErrReply(500, Str(price.error)); }
    var feeRate := Subscript(client.account, "takerFeeRate");
    if feeRate.Err? { return ErrReply(500, Str(feeRate.error)); }
    var contracts := Contracts(client.configs);
    if contracts.Err? { return ErrReply(500, Str(contracts.error)); }
    var contract := FindContract(contracts.value, symbol);
    if contract.Err? { return ErrReply(500, Str(contract.error)); }
    var roundedSize := client.roundSize(size, Get(contract.value, "stepSize", JNull).value);
    if roundedSize.Err? { return ErrReply(500, Str(roundedSize.error)); }
    var roundedPrice := client.roundSize(price.value, Get(contract.value, "tickSize", JNull).value);
    if roundedPrice.Err? { return ErrReply(500, Str(roundedPrice.error)); }
    var ret := client.createOrder(ApexOrder(symbol, side, roundedSize.value, roundedPrice.value, feeRate.value));
    if ret.Err? { return ErrReply(500, Str(ret.error)); }
    var classified := ClassifyOrder(ret.value);
    if classified.Err? { return ErrReply(500, Str(classified.error)); }
    return classified.value;
  }

  /**
   * An order response object with a `code` member gives 400 with its `msg` (""
   * when absent); without one, 200 with the price and size of its `data`.
   */
  lemma ClassifyOrderObject(fields: seq<(string, Json)>)
    ensures var r := ClassifyOrder(JObj(fields));
            (Lookup(fields, "code").Some? ==>
               r == Ok(Reply(400, JObj([("result", JStr("Err")),
                                        ("message", match Lookup(fields, "msg") case Some(m) => m case None => JStr(""))])))) &&
            (Lookup(fields, "code").None? && Lookup(fields, "data").Some? && Subscript(Lookup(fields, "data").value, "price").Ok? &&
             Subscript(Lookup(fields, "data").value, "size").Ok? ==>
               r == Ok(Reply(200, JObj([("result", JStr("Ok")), ("price", Subscript(Lookup(fields, "data").value, "price").value),
                                        ("size", Subscript(Lookup(fields, "data").value, "size").value)]))))
  {}

  /** The adapter's reply is always 200, 400 or 500, and never an escaped exception. */
  lemma OrderOutcomeStatus(client: ApexClient, symbol: Json, size: Json, side: Json)
    ensures var r := OrderOutcome(client, symbol, size, side);
            r.Reply? && (r.status == 200 || r.status == 400 || r.status == 500)
  {
    match PlaceOrder(client, symbol, size, side)
    case Err(_) =>
    case Ok(order) =>
      match client.createOrder(order)
      case Err(_) =>
      case Ok(ret) =>
        if ClassifyOrder(ret).Ok? {
          ClassifyOrderStatus(ret);
        }
  }

  /** A classification that does not raise answers 200 or 400. */
  lemma ClassifyOrderStatus(ret: Json)
    requires ClassifyOrder(ret).Ok?
    ensures var r := ClassifyOrder(ret).value;
            r.Reply? && (r.status == 200 || r.status == 400)
  {}
}
