/**
 * The byte handling around the KMS envelope decryption: PKCS#7 unpadding in
 * the style of section 6.3 of RFC 5652 (without validating the padding), the
 * split of the decoded envelope into a 16-byte IV and the ciphertext, the input
 * checks, and the choice between hex and UTF-8 output. base64, KMS, AES-CBC and
 * UTF-8 decoding are parameters.
 */
module KmsDecrypt {
  import opened Wrappers
  import opened Text
  import opened PyJson

  /** A byte, as an element of a Python `bytes` value. */
  newtype Byte = b: int | 0 <= b < 256

  /** Python's `s[:-k]` for `k >= 0`: a negative stop counts from the end and is clamped at 0; `-0` is 0. */
  function DropLast<T>(s: seq<T>, k: nat): seq<T> {
    var stop: int := -(k as int);
    var n: int := if stop < 0 then (if stop + |s| < 0 then 0 else stop + |s|) else (if stop > |s| then |s| else stop);
    s[..n]
  }

  /** `unpad_pkcs7(data)`: remove as many bytes as the last byte says; nothing else is inspected. */
  function UnpadPkcs7(data: seq<Byte>): (r: seq<Byte>)
    ensures data == [] ==> r == data
    ensures data != [] && 1 <= data[|data| - 1] as int <= |data| ==> r == data[..|data| - data[|data| - 1] as int]
    ensures data != [] && (data[|data| - 1] == 0 || data[|data| - 1] as int > |data|) ==> r == []
  {
    if data == [] then data else DropLast(data, data[|data| - 1] as nat)
  }

  /** Section 6.3 of RFC 5652: append `k` copies of the byte `k`. */
  function Pad(data: seq<Byte>, k: nat): (r: seq<Byte>)
    requires 1 <= k <= 16
    ensures |r| == |data| + k && r[..|data|] == data
    ensures forall i :: |data| <= i < |r| ==> r[i] == k as Byte
  {
    data + seq(k, _ => k as Byte)
  }

  /** The padding for 16-byte blocks: between 1 and 16 bytes, so that the length becomes a multiple of 16. */
  function PadToBlock(data: seq<Byte>): (r: seq<Byte>)
    ensures |r| % 16 == 0 && |data| < |r| <= |data| + 16
  {
    Pad(data, 16 - |data| % 16)
  }

  /** Unpadding undoes padding, for every pad length the standard allows. */
  lemma UnpadPad(data: seq<Byte>, k: nat)
    requires 1 <= k <= 16
    ensures UnpadPkcs7(Pad(data, k)) == data
  {
    var p := Pad(data, k);
    assert p[|p| - 1] == k as Byte;
    assert (k as Byte) as int == k;
  }

  /** Only the last byte is read: the bytes it removes may be anything. */
  lemma UnpadIgnoresRemovedBytes(prefix: seq<Byte>, junk: seq<Byte>, k: Byte)
    requires |junk| + 1 == k as int
    ensures UnpadPkcs7(prefix + junk + [k]) == prefix
  {
    var d := prefix + junk + [k];
    assert d[|d| - 1] == k;
    assert d[..|d| - k as int] == prefix;
  }

  /** `(encrypted_data[:16], encrypted_data[16:])`: the IV and the ciphertext. */
  function SplitEnvelope(envelope: seq<Byte>): (r: (seq<Byte>, seq<Byte>))
    ensures r.0 + r.1 == envelope
    ensures |r.0| == if |envelope| < 16 then |envelope| else 16
  {
    var n := if |envelope| < 16 then |envelope| else 16;
    (envelope[..n], envelope[n..])
  }

  const HexDigits: string := "0123456789abcdef"

  function HexByte(b: Byte): string {
    [HexDigits[b as int / 16], HexDigits[b as int % 16]]
  }

  /** `bytes.hex()`: two lower-case hex digits per byte. */
  function Hex(bs: seq<Byte>): (r: string)
    ensures |r| == 2 * |bs|
    ensures forall i :: 0 <= i < |r| ==> r[i] in HexDigits
    decreases |bs|
  {
    if bs == [] then "" else HexByte(bs[0]) + Hex(bs[1..])
  }

  function NibbleValue(c: char): (r: Option<nat>)
    ensures r.Some? ==> r.value < 16
  {
    if '0' <= c <= '9' then Some(c as int - '0' as int)
    else if 'a' <= c <= 'f' then Some(c as int - 'a' as int + 10)
    else None
  }

  /** `bytes.fromhex(s)` for a string without spaces; `None` where Python raises ValueError. */
  function FromHex(s: string): Option<seq<Byte>>
    decreases |s|
  {
    if |s| < 2 then (if s == [] then Some([]) else None)
    else
      var hi := NibbleValue(s[0]);
      var lo := NibbleValue(s[1]);
      var rest := FromHex(s[2..]);
      if hi.Some? && lo.Some? && rest.Some? then Some([(hi.value * 16 + lo.value) as Byte] + rest.value) else None
  }

  lemma NibbleOfDigit(i: nat)
    requires i < 16
    ensures NibbleValue(HexDigits[i]) == Some(i)
  {
    if i < 10 {
      assert HexDigits[i] as int == '0' as int + i;
    } else {
      assert HexDigits[i] as int == 'a' as int + i - 10;
    }
  }

  /** Reading the two hex digits of a byte in front of `t` gives that byte in front of what `t` reads as. */
  lemma HexByteReadsBack(b: Byte, t: string)
    ensures FromHex(HexByte(b) + t) == if FromHex(t).Some? then Some([b] + FromHex(t).value) else None
  {
    var v := b as int;
    NibbleOfDigit(v / 16);
    NibbleOfDigit(v % 16);
    assert v / 16 * 16 + v % 16 == v;
    var s := HexByte(b) + t;
    assert s[2..] == t;
  }

  /** The hex form reads back as the same bytes. */
  lemma {:induction false} HexRoundTrip(bs: seq<Byte>)
    ensures FromHex(Hex(bs)) == Some(bs)
    decreases |bs|
  {
    if bs != [] {
      HexByteReadsBack(bs[0], Hex(bs[1..]));
      HexRoundTrip(bs[1..]);
      assert [bs[0]] + bs[1..] == bs;
    }
  }

  /** The library calls the decryption goes through, none of which this model looks into. */
  datatype Kms = Kms(
    b64decode: string -> Result<seq<Byte>, PyError>,
    /** The data key KMS returns in `Plaintext`, given the region and the encrypted key. */
    decryptKey: (string, seq<Byte>) -> Result<seq<Byte>, PyError>,
    /** AES-CBC decryption of a ciphertext with a key and an IV. */
    aesCbc: (seq<Byte>, seq<Byte>, seq<Byte>) -> Result<seq<Byte>, PyError>,
    utf8: seq<Byte> -> Result<string, PyError>)

  /** `os.environ.get("AWS_REGION", "eu-central-1")`. */
  function Region(environ: string -> Option<string>): (r: string)
    ensures environ("AWS_REGION").None? ==> r == "eu-central-1"
    ensures environ("AWS_REGION").Some? ==> r == environ("AWS_REGION").value
  {
    match environ("AWS_REGION")
    case Some(region) => region
    case None => "eu-central-1"
  }

  /** The truth value of an optional string: present and not empty. */
  predicate Given(s: Option<string>) {
    s.Some? && s.value != ""
  }

  /** The returned text: the hex form of the bytes, or their UTF-8 decoding. */
  function Output(kms: Kms, unpadded: seq<Byte>, isHex: bool): Result<string, PyError> {
    if isHex then Ok(Hex(unpadded)) else kms.utf8(unpadded)
  }

  /** One input's check and decoding: ValueError with `missing` when it is unset or empty, else base64 without spaces. */
  function DecodeInput(kms: Kms, s: Option<string>, missing: string): Result<seq<Byte>, PyError> {
    if !Given(s) then Err(ValueError(missing)) else kms.b64decode(RemoveChar(s.value, ' '))
  }

  /** `decrypt_data_with_kms(encrypted_data_key_str, encrypted_data_str, is_hex)`. */
  function DecryptDataWithKms(environ: string -> Option<string>, kms: Kms,
                              keyStr: Option<string>, dataStr: Option<string>, isHex: bool): Result<string, PyError>
  {
    match DecodeInput(kms, keyStr, "Specify your encrypted data key")
    case Err(e) => Err(e)
    case Ok(keyBlob) =>
      match DecodeInput(kms, dataStr, "Specify your encrypted data")
      case Err(e) => Err(e)
      case Ok(envelope) => DecryptEnvelope(kms, Region(environ), keyBlob, envelope, isHex)
  }

  function DecryptEnvelope(kms: Kms, region: string, keyBlob: seq<Byte>, envelope: seq<Byte>, isHex: bool): Result<string, PyError> {
    match kms.decryptKey(region, keyBlob)
    case Err(e) => Err(e)
    case Ok(dataKey) =>
      var parts := SplitEnvelope(envelope);
      match kms.aesCbc(dataKey, parts.0, parts.1)
      case Err(e) => Err(e)
      case Ok(plain) => Output(kms, UnpadPkcs7(plain), isHex)
  }

  /**
   * The inputs are checked before anything is decrypted: a missing or empty key
   * or data string raises ValueError, and the outcome then does not depend on KMS
   * or AES at all.
   */
  lemma DecryptChecksInputsFirst(environ: string -> Option<string>, kms: Kms, other: Kms,
                                 keyStr: Option<string>, dataStr: Option<string>, isHex: bool)
    requires other.b64decode == kms.b64decode
    ensures !Given(keyStr) ==> DecryptDataWithKms(environ, kms, keyStr, dataStr, isHex) == Err(ValueError("Specify your encrypted data key"))
    ensures Given(keyStr) && kms.b64decode(RemoveChar(keyStr.value, ' ')).Ok? && !Given(dataStr) ==>
              DecryptDataWithKms(environ, kms, keyStr, dataStr, isHex) == Err(ValueError("Specify your encrypted data"))
    ensures !Given(keyStr) || !Given(dataStr) ==>
              DecryptDataWithKms(environ, kms, keyStr, dataStr, isHex) == DecryptDataWithKms(environ, other, keyStr, dataStr, isHex)
  {}

  /** Spaces in either input make no difference: they are removed before base64 decoding. */
  lemma DecryptIgnoresSpaces(environ: string -> Option<string>, kms: Kms,
                             key1: string, key2: string, data1: string, data2: string, isHex: bool)
    requires key1 != "" && key2 != "" && data1 != "" && data2 != ""
    requires RemoveChar(key1, ' ') == RemoveChar(key2, ' ') && RemoveChar(data1, ' ') == RemoveChar(data2, ' ')
    ensures DecryptDataWithKms(environ, kms, Some(key1), Some(data1), isHex) == DecryptDataWithKms(environ, kms, Some(key2), Some(data2), isHex)
  {
    assert DecodeInput(kms, Some(key1), "Specify your encrypted data key") == DecodeInput(kms, Some(key2), "Specify your encrypted data key");
    assert DecodeInput(kms, Some(data1), "Specify your encrypted data") == DecodeInput(kms, Some(data2), "Specify your encrypted data");
  }

  /**
   * When every library call succeeds: the data key is decrypted in the region
   * from the environment, the first 16 bytes of the envelope are the IV and the
   * rest is the ciphertext, and the unpadded plaintext comes back as hex or as
   * UTF-8 text.
   */
  lemma DecryptOutcome(environ: string -> Option<string>, kms: Kms, keyStr: string, dataStr: string, isHex: bool,
                       keyBlob: seq<Byte>, envelope: seq<Byte>, dataKey: seq<Byte>, plain: seq<Byte>)
    requires keyStr != "" && dataStr != ""
    requires kms.b64decode(RemoveChar(keyStr, ' ')) == Ok(keyBlob)
    requires kms.b64decode(RemoveChar(dataStr, ' ')) == Ok(envelope)
    requires kms.decryptKey(Region(environ), keyBlob) == Ok(dataKey)
    requires var iv := if |envelope| < 16 then envelope else envelope[..16];
             kms.aesCbc(dataKey, iv, envelope[|iv|..]) == Ok(plain)
    ensures var r := DecryptDataWithKms(environ, kms, Some(keyStr), Some(dataStr), isHex);
            (isHex ==> r == Ok(Hex(UnpadPkcs7(plain))) && |r.value| == 2 * |UnpadPkcs7(plain)|) &&
            (!isHex ==> r == kms.utf8(UnpadPkcs7(plain)))
  {
    var parts := SplitEnvelope(envelope);
    assert parts.0 == if |envelope| < 16 then envelope else envelope[..16];
  }
}
