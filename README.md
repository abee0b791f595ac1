# dex-router core, modelled in Dafny

This project models the decision and transformation logic of a small Flask service. The service routes trading requests to decentralised-exchange adapters. The model covers four source files:

- **`dex/mufex.py`**, the Mufex adapter:
  - exact-decimal rounding of a quantity to a step (`round_size`);
  - side normalisation (`convert_side`);
  - the HMAC pre-hash and the signed headers;
  - the result-code check;
  - order submission and confirmation (`__create_order_internal`, `create_order`);
  - position listing (`__get_positions`);
  - the loop that closes every open position (`close_all_positions`).
- **`dex/kms_decrypt.py`**:
  - PKCS#7 unpadding in the style of section 6.3 of RFC 5652, which does not check the padding;
  - the checks on the inputs;
  - the split of the envelope into a 16-byte IV and the ciphertext;
  - the choice between hex and UTF-8 output.
- **`dex/apex.py`**, the ApeX adapter:
  - reading the encrypted credentials (`get_decrypted_env`, `ApexDex.__init__`);
  - the classification of a ticker response;
  - `get_yesterday_pnl`;
  - the first-match contract lookup in `create_order`, and the classification of the order response.
- **`server.py`**: the two before-request hooks, applied in order (API key first, then the DEX name), and the parameter checks of the three routes that have them.

The modules are:

| module | contents |
|---|---|
| `Wrappers` | `Option` and `Result` |
| `Text` | the Python `str` operations the code uses: `replace`, `upper`, `capitalize`, `str(int)`, `int(str)`, `join`, `in` |
| `PyJson` | decoded JSON values and the Python operations applied to them (`x[k]`, `x[0]`, `.get`, `in`, iteration, truth value, `== 0`, `str`), the exceptions these raise, and a Flask reply (`Reply(status, body)`, or `Crash(error)` for an exception that escapes a view) |
| `Decimals` | finite `decimal.Decimal` values: parsing, `str()`, exact truncated division |
| `EnvConfig` | the `_MAIN`/`_TEST` suffix and the missing-credential list that both adapters share |
| `KmsDecrypt`, `Mufex`, `Apex`, `Server` | one each per source file |

How the model treats the outside world:

- **The network.** The exchange is an oracle, `Mufex.Exchange`. It receives every request sent so far and the next request, and says how the call ends: a decoded body, a timeout, or another exception. The clock, the HMAC digest, `json.dumps`, `quote_plus` and the float fill price are the oracle's parameters too.
- **Recorded requests.** Each Mufex operation returns the requests it sent, appended to the ones sent before it. A contract can therefore say which requests were sent, in what order, and that none was sent after a failure (`Mufex.CloseFromSends`, with `Mufex.CloseFromSubmits` and `Mufex.CloseFromErrorLast`).
- **Foreign libraries.** The ApeX client (`apexpro`), KMS, AES-CBC, base64 and UTF-8 decoding are parameters.
- **Exceptions.** Python exceptions are values (`PyJson.PyError`). A view that raises ends in `Crash`.

Where the code does not do what the rest of the repository expects, the model follows the code:

- `server.py:72` calls `ApexDex.create_order` with four arguments, but the method takes three. The view therefore crashes with a TypeError once the keys are present.
- `server.py:87` calls `close_all_positions`, which `ApexDex` does not define. The view crashes with an AttributeError.
- `EXPECTED_API_KEY` is assigned only in TESTNET mode. In every other mode, each request that carries a key crashes with a NameError.
- `dex/mufex.py:13` imports `get_decrypted_env` from `dex/kms_decrypt.py`, which does not define it. The Mufex constructor therefore takes that lookup as a parameter (`Mufex.NewMufexDex`).

Both adapters set their fields once, in the constructor, and never change them afterwards. So they are immutable datatypes (`Mufex.MufexDex`, `Apex.ApexDex`), not classes.

Each `for` statement in the source is a `method` with a `while` or `for` loop, proved equal to a function that specifies it (the list comprehensions at dex/mufex.py:52 and dex/apex.py:39 are the recursive `EnvConfig.MissingVars`):
- the extraction loop of `__get_positions`;
- the closing loop of `close_all_positions`;
- the contract search of ApeX `create_order`.

## Model

| member | source | states |
|---|---|---|
| Text.RemoveChar | dex/mufex.py:107 | `s.replace(c, "")`: the result contains no `c`, and keeps every other character with its multiplicity; a string without `c` is unchanged |
| Text.RemoveCharAppend | dex/mufex.py:107 | removing a character distributes over concatenation |
| Text.UpperIdempotent | dex/mufex.py:27 | upper-casing twice is the same as once |
| Text.UpperLowerAscii | dex/mufex.py:27 | upper-casing ignores the ASCII case of the input |
| Text.Capitalize | dex/mufex.py:30 | on ASCII text, `capitalize()` upper-cases the first character, lower-cases every other one, and keeps the length |
| Text.IntToStringRoundTrip | dex/mufex.py:134-135 | `int(str(i)) == i` for every integer |
| Text.IntToStringInjective | dex/mufex.py:134-135 | different integers print differently |
| Text.NatToStringValue | dex/mufex.py:134-135 | the decimal digits of `str(n)` denote `n` |
| Text.ContainsSubstringSpec | dex/apex.py:20 | `sub in s` holds iff `sub` occurs at some position of `s` |
| PyJson.LookupSpec | dex/mufex.py:146 | a key is found iff some member carries it, and the value found is that of the last member carrying it, the binding `json.loads` keeps |
| PyJson.LookupUnique | dex/mufex.py:121-124 | a key carried by exactly one member is looked up as that member's value |
| PyJson.KeysSpec | dex/mufex.py:212 | iterating a decoded dict (as `for position in positions` does when the list is an object) visits exactly the keys that can be looked up, each once, in the order of their first occurrence |
| PyJson.Subscript | dex/mufex.py:117 | `j[k]` succeeds iff `j` is an object with key `k`, and then yields that key's value |
| PyJson.Index0 | dex/mufex.py:117 | on a list, `j[0]` succeeds iff the list is not empty, and yields its first item |
| PyJson.Get | dex/mufex.py:146 | `j.get(k, d)` succeeds iff `j` is an object, and yields the value of `k`, or `d` when `k` is absent |
| PyJson.In | server.py:62 | `k in j` is key membership on an object and item membership on a list |
| PyJson.Iter | dex/mufex.py:212 | iterating a list visits its items in order |
| PyJson.ConcatStr | dex/mufex.py:148 | `a + b` succeeds iff `a` is a str, and then concatenates |
| PyJson.AsStr | dex/mufex.py:107 | a string method succeeds on a str and raises AttributeError on anything else |
| Decimals.IntegralToString | dex/mufex.py:123 | `str()` of an integral decimal is the integer's text |
| Decimals.IntegralRoundTrip | dex/mufex.py:22-23 | `Decimal(str(d)) == d` for an integral decimal |
| Decimals.ParseDigits | dex/mufex.py:22 | `Decimal(s)` of an unsigned run of digits is that number with exponent 0 |
| EnvConfig.Suffix | dex/apex.py:28 | the suffix is `_MAIN` iff the mode is exactly "MAINNET", and `_TEST` otherwise |
| EnvConfig.MissingVars | dex/apex.py:39-40 | the missing names are exactly those whose value is None; the list is empty iff every value is set |
| EnvConfig.MissingVarsCons | dex/apex.py:39-40 | the first name is listed first when its value is None |
| EnvConfig.MissingVarsAppend | dex/apex.py:39-40 | names are listed in declaration order |
| EnvConfig.Pair | dex/apex.py:30-37 | the dict literal pairs each name with its value, in order |
| EnvConfig.MissingPairs | dex/apex.py:30-43 | for names paired with values, nothing is missing iff every value is set; a name is missing iff its value is None |
| KmsDecrypt.UnpadPkcs7 | dex/kms_decrypt.py:10-18 | empty input is returned unchanged; a last byte `k` with `1 <= k <= len` drops the last `k` bytes; a last byte of 0 or above the length gives the empty sequence |
| KmsDecrypt.Pad | dex/kms_decrypt.py:10-13 | padding with `k` (1..16) appends `k` copies of byte `k` |
| KmsDecrypt.PadToBlock | dex/kms_decrypt.py:10-13 | block padding makes the length a multiple of 16 and adds 1 to 16 bytes |
| KmsDecrypt.UnpadPad | dex/kms_decrypt.py:10-18 | unpadding undoes padding with any `k` from 1 to 16 |
| KmsDecrypt.UnpadIgnoresRemovedBytes | dex/kms_decrypt.py:17-18 | only the last byte is read: the other removed bytes may be anything |
| KmsDecrypt.SplitEnvelope | dex/kms_decrypt.py:44-48 | the IV is the first 16 bytes (all of a shorter input), the ciphertext is the rest, and together they are the input |
| KmsDecrypt.Hex | dex/kms_decrypt.py:54-55 | `bytes.hex()` is twice as long as the input and uses only lowercase hex digits |
| KmsDecrypt.HexRoundTrip | dex/kms_decrypt.py:54-55 | the hex text reads back as the original bytes |
| KmsDecrypt.Region | dex/kms_decrypt.py:23 | `AWS_REGION` when it is set, and "eu-central-1" otherwise |
| KmsDecrypt.DecryptChecksInputsFirst | dex/kms_decrypt.py:29-37 | a missing or empty key, then a missing or empty data string, raises ValueError with its message, whatever KMS would answer |
| KmsDecrypt.DecryptIgnoresSpaces | dex/kms_decrypt.py:31-37 | inputs that differ only in spaces decrypt alike |
| KmsDecrypt.DecryptOutcome | dex/kms_decrypt.py:21-57 | when the library calls succeed, the data key is decrypted in the configured region; the first 16 envelope bytes are the IV and the rest is the ciphertext; the unpadded plaintext comes back as hex (twice its length) or as UTF-8 |
| Mufex.ToDecimal | dex/mufex.py:22 | `Decimal(x)`: exact for an int; for a str, it succeeds iff the text parses, and the value is the parsed decimal; None and dicts raise TypeError |
| Mufex.RoundDecimal | dex/mufex.py:21-23 | the division raises iff the step is zero; otherwise the result has the step's exponent |
| Mufex.RoundSize | dex/mufex.py:21-23 | a result means both arguments converted, and the result is the exact truncated quotient times the step |
| Mufex.RoundDecimalBounds | dex/mufex.py:21-23 | measured at the common exponent, the result is the truncated quotient times the step; it is no larger than the size in magnitude, less than one step away from it, and never of the opposite sign |
| Mufex.RoundSizePositive | dex/mufex.py:21-23 | for a positive size and step, the result is at most the size, more than the size less one step, and a whole number of steps |
| Mufex.RoundSizeNegative | dex/mufex.py:21-23 | `int()` truncates toward zero, so a negative size rounds up: the result lies between the size and zero |
| Mufex.RoundSizeIdempotent | dex/mufex.py:21-23 | rounding twice with the same step equals rounding once |
| Mufex.ConvertSide | dex/mufex.py:26-32 | succeeds iff the side is a str (anything else has no `upper`) |
| Mufex.CapitalizeSides | dex/mufex.py:30 | "BUY" capitalises to "Buy", and "SELL" to "Sell" |
| Mufex.ConvertSideValues | dex/mufex.py:26-32 | without reverse, BUY gives "Buy" and SELL gives "Sell"; with reverse they swap; anything else gives "Invalid Side"; reversing yields the opposite of the plain result |
| Mufex.ConvertSideIgnoresCase | dex/mufex.py:27 | upper- or lower-casing the side first changes nothing |
| Mufex.ReverseClosesSide | dex/mufex.py:28-30 | reversing "Buy" gives "Sell" and reversing "Sell" gives "Buy" |
| Mufex.NewMufexDexSpec | dex/mufex.py:45-64 | the body of `__init__`: it completes iff both suffixed credentials are set, holding them and the mainnet URL iff the mode is MAINNET; otherwise EnvironmentError names the missing ones in order |
| Mufex.Send | dex/mufex.py:66-90 | a decoded body is data without error; a timeout gives "Request timed out: url=..."; any other exception gives its text as the error |
| Mufex.GenerateSignature | dex/mufex.py:99-104 | the signature is the HMAC, under the secret, of `str(timestamp) + key + str(5000) + query + body`; the returned timestamp and window are the ones signed |
| Mufex.SignedHeadersCheck | dex/mufex.py:127-137 | the headers pass the exchange's recomputation of the HMAC, carry the key, read back as the timestamp and window used, and carry a JSON content type iff the body is JSON |
| Mufex.CodeErrorSpec | dex/mufex.py:145-149 | a response passes iff its code equals 0; otherwise the error is its message, the separator and `(code)`; a message that is not a str raises TypeError |
| Mufex.MissingCode | dex/mufex.py:146 | a response without `code` never passes, and its error ends in "(9999)" |
| Mufex.CodeErrorNotObject | dex/mufex.py:146 | a response body that is not an object raises AttributeError on `.get` |
| Mufex.CodeErrorReadsBack | dex/mufex.py:148 | an integer code can be read back from between the final parentheses of the error |
| Mufex.OrderBodyFields | dex/mufex.py:121-124 | the body carries the given symbol, side and quantity, a Market ImmediateOrCancel order on position 0, and no price |
| Mufex.CreateRequestAuthentic | dex/mufex.py:125-143 | the submission is a POST of the body, signed over its JSON text, with a JSON content type and the clock's timestamp |
| Mufex.ActivityRequestAuthentic | dex/mufex.py:151-166 | the confirmation is a GET of the order id and symbol, signed over their URL encoding, with no content type |
| Mufex.CreateOrderFetchesInstrument | dex/mufex.py:106-113 | the price argument is never used; a non-str symbol raises before anything is sent; the first request is the unsigned instrument query for the symbol without hyphens; an error response to it is returned with nothing else sent |
| Mufex.SubmitOrderNeedsInputs | dex/mufex.py:117-119 | an unreadable step, an unroundable size or a non-str side raises before the order is sent |
| Mufex.FirstListItem | dex/mufex.py:117 | `data["data"]["list"][0]` is the first item of that value when it is a non-empty list; an object it returns is always that item |
| Mufex.SubmitOrderSends | dex/mufex.py:117-143 | otherwise exactly the earlier requests come first, and the next one is a signed POST to `/private/v1/trade/create` that the exchange accepts; its body holds the hyphen-free symbol, the side (the opposite one when reversing; always Buy, Sell or Invalid Side), `str` of the rounded size, and no price |
| Mufex.ReverseSubmitsOpposite | dex/mufex.py:311-312 | a reversed submission for a "Buy" position sells, and one for a "Sell" position buys |
| Mufex.CreatedSpec | dex/mufex.py:142-150 | an error response, or a nonzero code, ends the operation with nothing more sent; a zero code leads to the confirmation |
| Mufex.ConfirmOrderSends | dex/mufex.py:151-176 | an unreadable order id raises with nothing sent; otherwise the activity query is the last request; an error response to it is returned as it is, a nonzero code gives the message followed by " (code)", and with code 0 its response is returned |
| Mufex.OrderReplySpec | dex/mufex.py:274-296 | unless an exception escapes, the status is 200 or 500; it is 500 exactly for an error response, with its text; the body is an empty 200 exactly when the first listed order has an `orderStatus` other than Filled; any other 200 is a Filled order's price (the fill-price text computed from its `cumExecValue` and `cumExecQty`), `cumExecQty` and `cumExecFee` |
| Mufex.Project | dex/mufex.py:213-217 | a position is projected iff it has symbol, size and side, and the projection holds exactly those three |
| Mufex.Extract | dex/mufex.py:209-220 | the list is projected iff every position can be projected; the result has the same length and order |
| Mufex.ExtractFirstError | dex/mufex.py:212-218 | the exception raised is that of the first position that cannot be projected |
| Mufex.ExtractSnoc | dex/mufex.py:212-218 | one more projected position extends the result by its projection |
| Mufex.ExtractStops | dex/mufex.py:212-218 | after a projectable prefix, an unprojectable position raises its own error |
| Mufex.ExtractPositions | dex/mufex.py:209-220 | the `append` loop computes exactly the extraction |
| Mufex.ReadPositionsSpec | dex/mufex.py:209-220 | a decoded positions list comes back with the same length and order, each element reduced to symbol, size and side |
| Mufex.PositionsParamsSpec | dex/mufex.py:180-184 | no parameter when the symbol is None; the symbol without hyphens when it is a str; anything else raises |
| Mufex.PositionsRequestAuthentic | dex/mufex.py:186-198 | the positions query is signed over the URL encoding of its parameters |
| Mufex.PositionsSends | dex/mufex.py:197-220 | exactly one query is sent; an error response is returned as it is; a nonzero code gives the code error built with no space before the parenthesis; with a zero code, the extracted positions are returned |
| Mufex.GetPositions | dex/mufex.py:178-220 | the method computes exactly `__get_positions` |
| Mufex.CloseFromSubmits | dex/mufex.py:307-316 | orders are submitted in list order, only for positions whose size is not zero; every submission has a result except possibly a last one that raised, and a reply rather than an exception means every submission has one |
| Mufex.CloseFromStopsAtError | dex/mufex.py:311-316 | every submission but the last succeeded |
| Mufex.CloseFromErrorLast | dex/mufex.py:313-316 | a failing response ends the loop: nothing is submitted after it, and the reply is 500 with its text |
| Mufex.CloseFromSends | dex/mufex.py:307-318 | the loop sends nothing of its own: the log it ends with is the one its submissions produce in turn, so nothing is sent after the last one |
| Mufex.CloseFromErrorReply | dex/mufex.py:313-316 | a 500 reply comes from a failing last submission and carries its error text |
| Mufex.CloseFromCompletes | dex/mufex.py:307-318 | an empty 200 reply means every nonzero position was submitted and none failed |
| Mufex.CloseAllPositions | dex/mufex.py:298-318 | the loop with `continue` and an early return computes exactly `close_all_positions` |
| Apex.GetDecryptedEnv | dex/apex.py:15-23 | None unless both `ENCRYPTED_DATA_KEY` and `ENCRYPTED_<name>` are set and not empty |
| Apex.GetDecryptedEnvDecrypts | dex/apex.py:19-21 | with both set, the value is the decryption, in hex mode iff "STARK_" occurs in the name |
| Apex.DecryptAll | dex/apex.py:30-37 | the six values are read in order; the first exception escapes |
| Apex.ApexInitMissing | dex/apex.py:30-43 | construction succeeds iff all six values are set; otherwise EnvironmentError lists exactly the unset ones, in declaration order |
| Apex.ApexInitSettings | dex/apex.py:45-57 | each field holds the value read for its suffixed name; the mainnet URL and network id are used iff the mode is MAINNET |
| Apex.TickerParamsSpec | dex/apex.py:77-79 | the query carries the symbol without hyphens |
| Apex.ClassifyTickerObject | dex/apex.py:90-113 | with a non-empty data list whose first item has `lastPrice`: Ok with that price and the original symbol; a first item without it gives 400; missing or empty data gives 400 |
| Apex.GetTickerReplies | dex/apex.py:84-131 | the reply is 200, 400 or 500; 200 only for a decoded body; every exception gives 500 with its text; an undecodable body gives 500 naming the status and the content |
| Apex.ClassifyTickerStatus | dex/apex.py:90-113 | a classification that does not raise answers 200 or 400 |
| Apex.GetYesterdayPnlObject | dex/apex.py:133-145 | Ok with `data` iff the key is present, and an Err body otherwise, both with status 200 |
| Apex.FirstContract | dex/apex.py:155-159 | the contract found is always an object |
| Apex.FirstContractFound | dex/apex.py:155-159 | the first entry whose symbol equals the requested one exactly is the one found |
| Apex.FirstContractAbsent | dex/apex.py:155-159 | with no match the result is the empty map |
| Apex.FindContract | dex/apex.py:155-159 | the loop with `break` computes exactly the first match |
| Apex.CreateOrder | dex/apex.py:147-185 | the method computes exactly the order outcome |
| Apex.ClassifyOrderObject | dex/apex.py:168-178 | a response with `code` gives 400 with `msg` ("" when absent); without it, 200 with the price and size of its data |
| Apex.ClassifyOrderStatus | dex/apex.py:168-178 | a classification that does not raise answers 200 or 400 |
| Apex.OrderOutcomeStatus | dex/apex.py:147-185 | the reply is always 200, 400 or 500, and never an escaped exception |
| Server.StartUp | server.py:10-12 | the expected key is bound iff the upper-cased mode is TESTNET, and then holds `ENCRYPTED_API_KEY_TEST` |
| Server.StartUpDefault | server.py:10-12 | without `ENV_MODE` the mode is TESTNET and the key is bound |
| Server.Arg | server.py:31 | `request.args.get(name)` finds a value iff the name is given, and then the first value given |
| Server.AuthorizationFirst | server.py:19-35 | a missing key gives 401 "API key missing" and a wrong key 401 "Invalid API key" (an unset key compares as "None"), whatever the DEX name, route and body |
| Server.MainnetKeyUnbound | server.py:10-12 | outside TESTNET, every request that carries a key crashes with NameError |
| Server.ApiKeyPasses | server.py:20-25 | only the exact string form of the expected key passes the first hook |
| Server.DexChecked | server.py:28-35 | after the key check, a missing or empty DEX gives 400 "DEX missing"; a name other than "apex" gives 400 "Unsupported DEX"; "apex" reaches the view |
| Server.TickerNeedsSymbol | server.py:40-48 | without `symbol`: 400, and the exchange is never queried; with it, the adapter answers |
| Server.CreateOrderNeedsKeys | server.py:59-72 | 400 unless symbol, size and side are all keys (price is optional); with all three, the four-argument call raises TypeError |
| Server.CloseAllNeedsSymbol | server.py:77-87 | 400 iff `symbol` is not a key, even when its value is null; otherwise the missing adapter method raises AttributeError |

## Left out

- Network I/O: `requests.get`/`post`, their timeouts and `raise_for_status`. The exchange oracle and `Apex.Fetched` stand for how each call ends.
- `__handle_request_error` (dex/mufex.py:92-97): it only prints. The AttributeError that it raises itself, for an exception without a `response` attribute, is not modelled.
- The HMAC-SHA256 digest, `time.time()`, `json.dumps`, `quote_plus`, and `str()` of a list or dict. These are uninterpreted parameters.
- boto3 KMS, AES-CBC, `base64.b64decode` and `.decode('utf-8')`. These are parameters (`KmsDecrypt.Kms`). Creating the KMS client is not modelled.
- The `apexpro` client: `HttpPrivateStark`, `configs()`, `get_user()`, `get_account()`, `get_worst_price`, `create_order`, `yesterday_pnl` and its `round_size`. These are parameters (`Apex.ApexClient`). The expiry time `time.time()` passed to `create_order` is not modelled.
- Floating point:
  - The fill price `float(val) / float(size)` is a parameter of the exchange oracle.
  - `float(size) == 0.0` is decided on the exact decimal value. Sizes that overflow, underflow, or read as inf or nan are not modelled.
- Mufex.RoundDecimal: uses exact arithmetic. The 28-digit context of `decimal` is not modelled. That context rounds both the quotient and the product `Decimal(int(q)) * step`. So the source differs whenever either has more than 28 significant digits. For example, size `1E+30` with step `1` prints as `1.000000000000000000000000000E+30` in the source, not with the step's exponent as the model states. The same exact arithmetic underlies `Mufex.RoundDecimalBounds`, `Mufex.RoundSizePositive`, `Mufex.RoundSizeNegative` and `Mufex.RoundSizeIdempotent`.
- Decimal and float parsing:
  - Whitespace, underscores, `inf`/`nan` and negative zero are not modelled.
  - `Decimal` of a list is an opaque `Foreign` error.
  - A JSON float is not modelled: numbers are integers.
  - There is a round-trip lemma only for integral values (`Decimals.IntegralRoundTrip`), not for every `str(Decimal)`.
- `str.upper` is modelled exactly only for characters whose upper case is ASCII. Every other character is left unchanged.
- Python `==` on decoded JSON is structural equality on the model's values. So `True == 1` is false in the model.
- Flask plumbing (`jsonify`, `make_response`, `app.run`). The model does not handle:
  - a `request.json` that fails to parse (415/400);
  - unknown routes;
  - building the module-level `dex = ApexDex(env_mode)` at import.

  `Server.Backend` takes the built adapter as given.
- Mufex `get_ticker` and `get_balance`: they are outside the modelled core.
- `dex/abstract_dex.py` declares `get_ticker`, `get_yesterday_pnl` and `create_order` abstract. `ApexDex` defines all three.
- Mufex.NewMufexDex: models only the body of `MufexDex.__init__`. `MufexDex` does not define the abstract `get_yesterday_pnl` (dex/abstract_dex.py:12-14), so `MufexDex(env_mode)` raises TypeError ("Can't instantiate abstract class") before `__init__` runs. No route reaches the Mufex adapter either: `server.py` supports only `apex`.
- Text.Capitalize: models `str.capitalize` on ASCII text only, which is all it is given (an upper-cased `BUY` or `SELL`). Python's `capitalize` maps other letters too and can change the length (`'ß'` becomes `'Ss'`).
- `print` logging.
- get_decrypted_env in `dex/mufex.py`: the name is imported from `dex/kms_decrypt.py`, which does not define it. Importing the module would fail. `Mufex.NewMufexDex` takes the lookup as a parameter instead.
- Mufex.CreateOrderFetchesInstrument: for a symbol that is not a str, it states the exception kind (AttributeError) but not its text.
- There is no single lemma that the requests of a whole `__create_order_internal` extend the earlier ones. The three stages (`CreateOrderFetchesInstrument`, `SubmitOrderSends`, `ConfirmOrderSends`) each state what they append.
