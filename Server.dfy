/**
 * The Flask front end (`server.py`): the mode read at start-up, the two
 * before-request hooks (API key first, then the DEX name) and the parameter
 * checks of the three routes that have them, in front of the ApeX adapter.
 */
module Server {
  import opened Wrappers
  import opened Text
  import opened PyJson
  import Apex

  /** Whether the module-level name `EXPECTED_API_KEY` was ever assigned, and to what. */
  datatype Binding = Unbound | Bound(value: Option<string>)

  /** The module globals set once at import. */
  datatype Globals = Globals(envMode: string, expectedApiKey: Binding)

  /** `os.environ.get("ENV_MODE", "TESTNET").upper()` and the TESTNET-only assignment of `EXPECTED_API_KEY`. */
  function StartUp(environ: string -> Option<string>): (g: Globals)
    ensures g.expectedApiKey.Bound? <==> g.envMode == "TESTNET"
    ensures g.expectedApiKey.Bound? ==> g.expectedApiKey.value == environ("ENCRYPTED_API_KEY_TEST")
  {
    var mode := Upper(match environ("ENV_MODE") case Some(m) => m case None => "TESTNET");
    Globals(mode, if mode == "TESTNET" then Bound(environ("ENCRYPTED_API_KEY_TEST")) else Unbound)
  }

  /** Without `ENV_MODE` the server runs in TESTNET mode and the expected key is bound. */
  lemma StartUpDefault(environ: string -> Option<string>)
    requires environ("ENV_MODE").None?
    ensures StartUp(environ) == Globals("TESTNET", Bound(environ("ENCRYPTED_API_KEY_TEST")))
  {
    assert Upper("TESTNET") == "TESTNET" by {
      UpperFixedChars("TESTNET");
    }
  }

  /** `f"{EXPECTED_API_KEY}"`: an unset key prints as "None". */
  function Formatted(key: Option<string>): string {
    match key
    case Some(k) => k
    case None => "None"
  }

  /** A `jsonify({"message": m}), status` reply. */
  function MessageReply(status: int, message: string): HttpReply {
    Reply(status, JObj([("message", JStr(message))]))
  }

  /** One incoming request, as far as the hooks and the routes read it. */
  datatype Route = Ticker | YesterdayPnl | CreateOrder | CloseAllPositions
  datatype Request = Request(route: Route, authorization: Option<string>, args: seq<(string, string)>, json: Json)

  /** `request.args.get(name)`: the first value given for the name. */
  function Arg(args: seq<(string, string)>, name: string): (r: Option<string>)
    ensures r.Some? <==> exists i :: 0 <= i < |args| && args[i].0 == name
    ensures r.Some? ==> exists i :: 0 <= i < |args| && args[i] == (name, r.value) &&
                                    forall j :: 0 <= j < i ==> args[j].0 != name
    decreases |args|
  {
    if args == [] then None
    else if args[0].0 == name then Some(args[0].1)
    else
      var r := Arg(args[1..], name);
      assert forall i :: 1 <= i < |args| ==> args[i] == args[1..][i - 1];
      r
  }

  /** `check_api_key()`: `None` lets the request through; an unbound expected key raises NameError once a key is given. */
  function CheckApiKey(g: Globals, authorization: Option<string>): Option<HttpReply> {
    match authorization
    case None => Some(MessageReply(401, "API key missing"))
    case Some(key) =>
      match g.expectedApiKey
      case Unbound => Some(Crash(NameError("name 'EXPECTED_API_KEY' is not defined")))
      case Bound(expected) =>
        if key != Formatted(expected) then Some(MessageReply(401, "Invalid API key")) else None
  }

  const SupportedDexNames: seq<string> := ["apex"]

  /** `check_dex()`. */
  function CheckDex(args: seq<(string, string)>): Option<HttpReply> {
    var name := Arg(args, "dex");
    if name.None? || name.value == "" then Some(MessageReply(400, "DEX missing"))
    else if name.value !in SupportedDexNames then Some(MessageReply(400, "Unsupported DEX"))
    else None
  }

  /** What the ApeX adapter is given to answer with: its settings, the ticker query and its client. */
  datatype Backend = Backend(dex: Apex.ApexDex, fetch: (string, seq<(string, Json)>) -> Apex.Fetched, client: Apex.ApexClient)

  /** The reply to `request`: the hooks in registration order, then the route's view. */
  function Handle(g: Globals, b: Backend, req: Request): HttpReply {
    match CheckApiKey(g, req.authorization)
    case Some(reply) => reply
    case None =>
      match CheckDex(req.args)
      case Some(reply) => reply
      case None => View(b, req)
  }

  /** The views of the four routes. */
  function View(b: Backend, req: Request): HttpReply {
    match req.route
    case Ticker =>
      (match Arg(req.args, "symbol")
       case None => MessageReply(400, "Missing required parameter: symbol.")
       case Some(symbol) => Apex.GetTicker(b.dex, b.fetch, symbol))
    case YesterdayPnl => Apex.GetYesterdayPnl(b.client)
    case CreateOrder => CreateOrderView(req.json)
    case CloseAllPositions => CloseAllView(req.json)
  }

  /**
   * `create_order()`: the three keys are tested in order, stopping at the first
   * missing one; then the four values are read, and the four-argument call to
   * `ApexDex.create_order`, which takes three, raises TypeError.
   */
  function CreateOrderView(data: Json): HttpReply {
    var missing := MessageReply(400, "Missing required parameters: symbol, size, and/or side.");
    match In("symbol", data)
    case Err(e) => Crash(e)
    case Ok(false) => missing
    case Ok(true) =>
      match In("size", data)
      case Err(e) => Crash(e)
      case Ok(false) => missing
      case Ok(true) =>
        match In("side", data)
        case Err(e) => Crash(e)
        case Ok(false) => missing
        case Ok(true) =>
          // `data.get('symbol')` raises for a body that is not an object; the other three `get`s then succeed too.
          match Get(data, "symbol", JNull)
          case Err(e) => Crash(e)
          case Ok(_) => Crash(TypeError("ApexDex.create_order() takes 4 positional arguments but 5 were given"))
  }

  /**
   * `close_all_positions()`: the key `symbol` must be present (its value may be
   * null); then `ApexDex`, which has no `close_all_positions`, raises AttributeError.
   */
  function CloseAllView(data: Json): HttpReply {
    match In("symbol", data)
    case Err(e) => Crash(e)
    case Ok(false) => MessageReply(400, "Missing required parameters: symbol.")
    case Ok(true) =>
      match Get(data, "symbol", JNull)
      case Err(e) => Crash(e)
      case Ok(_) => Crash(AttributeError("'ApexDex' object has no attribute 'close_all_positions'"))
  }

  // ---------------------------------------------------------------------------
  // Properties of the gatekeeping
  // ---------------------------------------------------------------------------

  /**
   * The API key is checked first: a request without one gets 401 "API key
   * missing", and one with the wrong key 401 "Invalid API key" (an unset expected
   * key compares as "None"), whatever its DEX name, route and body.
   */
  lemma AuthorizationFirst(g: Globals, b: Backend, req: Request)
    ensures req.authorization.None? ==> Handle(g, b, req) == MessageReply(401, "API key missing")
    ensures req.authorization.Some? && g.expectedApiKey.Bound? &&
            req.authorization.value != Formatted(g.expectedApiKey.value) ==>
              Handle(g, b, req) == MessageReply(401, "Invalid API key")
    ensures req.authorization.Some? && g.expectedApiKey == Bound(None) && req.authorization.value != "None" ==>
              Handle(g, b, req) == MessageReply(401, "Invalid API key")
    ensures CheckApiKey(g, req.authorization).Some? ==> Handle(g, b, req) == CheckApiKey(g, req.authorization).value
  {}

  /** Outside TESTNET the expected key is never assigned, so every request that carries a key fails with NameError. */
  lemma MainnetKeyUnbound(environ: string -> Option<string>, b: Backend, req: Request)
    requires StartUp(environ).envMode != "TESTNET" && req.authorization.Some?
    ensures Handle(StartUp(environ), b, req) == Crash(NameError("name 'EXPECTED_API_KEY' is not defined"))
  {}

  /**
   * The DEX name comes second: missing or empty gives 400 "DEX missing", any
   * name but "apex" 400 "Unsupported DEX", and "apex" reaches the view.
   */
  lemma DexChecked(g: Globals, b: Backend, req: Request)
    requires CheckApiKey(g, req.authorization).None?
    ensures var name := Arg(req.args, "dex");
            (name.None? || name == Some("") ==> Handle(g, b, req) == MessageReply(400, "DEX missing")) &&
            (name.Some? && name.value != "" && name.value != "apex" ==> Handle(g, b, req) == MessageReply(400, "Unsupported DEX")) &&
            (name == Some("apex") ==> Handle(g, b, req) == View(b, req))
  {}

  /** Only the right key passes the first hook. */
  lemma ApiKeyPasses(g: Globals, authorization: Option<string>)
    ensures CheckApiKey(g, authorization).None? <==>
              authorization.Some? && g.expectedApiKey.Bound? && authorization.value == Formatted(g.expectedApiKey.value)
  {}

  /** `/ticker` without `symbol` gives 400 and never queries the exchange; with one, the adapter answers. */
  lemma TickerNeedsSymbol(b: Backend, other: (string, seq<(string, Json)>) -> Apex.Fetched, req: Request)
    requires req.route == Ticker
    ensures Arg(req.args, "symbol").None? ==>
              View(b, req) == MessageReply(400, "Missing required parameter: symbol.") &&
              View(b, req) == View(b.(fetch := other), req)
    ensures Arg(req.args, "symbol").Some? ==> View(b, req) == Apex.GetTicker(b.dex, b.fetch, Arg(req.args, "symbol").value)
  {}

  /**
   * `/create-order` on an object body gives 400 unless `symbol`, `size` and `side`
   * are all keys (`price` is not required); even then the adapter is never reached.
   */
  lemma CreateOrderNeedsKeys(fields: seq<(string, Json)>)
    ensures var r := CreateOrderView(JObj(fields));
            var all := Lookup(fields, "symbol").Some? && Lookup(fields, "size").Some? && Lookup(fields, "side").Some?;
            (!all ==> r == MessageReply(400, "Missing required parameters: symbol, size, and/or side.")) &&
            (all ==> r == Crash(TypeError("ApexDex.create_order() takes 4 positional arguments but 5 were given")))
  {
    var data := JObj(fields);
    assert In("symbol", data) == Ok(Lookup(fields, "symbol").Some?);
    assert In("size", data) == Ok(Lookup(fields, "size").Some?);
    assert In("side", data) == Ok(Lookup(fields, "side").Some?);
    assert Get(data, "symbol", JNull).Ok?;
  }

  /**
   * `/close_all_positions` on an object body gives 400 exactly when `symbol` is
   * not a key; a null symbol passes the check like any other value.
   */
  lemma CloseAllNeedsSymbol(fields: seq<(string, Json)>)
    ensures var r := CloseAllView(JObj(fields));
            (Lookup(fields, "symbol").None? ==> r == MessageReply(400, "Missing required parameters: symbol.")) &&
            (Lookup(fields, "symbol").Some? ==> r == Crash(AttributeError("'ApexDex' object has no attribute 'close_all_positions'")))
  {}
}
