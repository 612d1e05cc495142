/** The callback route (apps/api/routes/v1/callbacks.py): n8n posts a
    `JobCallback`, signed with a lowercase-hex HMAC-SHA256 of the raw body
    in the `X-Callback-Signature` header. The signature is checked on the
    raw bytes before anything is parsed.

    HMAC-SHA256 (RFC 2104 over the SHA-256 of FIPS 180-4) is the parameter
    `mac`, from the UTF-8 bytes of the secret and the body to the digest;
    `decode` stands for the JSON decoder inside `model_validate_json`. */
module Callbacks {
  import opened Results
  import opened Json
  import opened Schema
  import opened CallbackSchema
  import opened Events

  type Byte = b: int | 0 <= b < 256

  // ---------------------------------------------------------------------
  // Lowercase hex

  /** The alphabet of `hexdigest()`: 0-9 and lowercase a-f. */
  predicate IsHexDigit(c: char) {
    '0' <= c <= '9' || 'a' <= c <= 'f'
  }

  /** HMAC-SHA256 digests are 32 bytes long. */
  const DigestLength := 32

  type Digest = d: seq<Byte> | |d| == DigestLength witness seq(DigestLength, _ => 0)

  function HexDigit(n: int): (c: char)
    requires 0 <= n < 16
    ensures IsHexDigit(c)
  {
    if n < 10 then '0' + n as char else 'a' + (n - 10) as char
  }

  /** The two digits of one byte, high nibble first. */
  function HexByte(b: Byte): (s: string)
    ensures |s| == 2 && IsHexDigit(s[0]) && IsHexDigit(s[1])
  {
    [HexDigit(b / 16), HexDigit(b % 16)]
  }

  /** `digest.hexdigest()`: the digits of each byte in turn. */
  function Hex(bytes: seq<Byte>): (s: string)
    ensures |s| == 2 * |bytes|
    ensures forall i :: 0 <= i < |s| ==> IsHexDigit(s[i])
  {
    if bytes == [] then "" else HexByte(bytes[0]) + Hex(bytes[1..])
  }

  /** The value of a hex digit. */
  function DigitValue(c: char): (n: Option<int>)
    ensures n.Some? ==> 0 <= n.value < 16
  {
    if '0' <= c <= '9' then Some((c - '0') as int)
    else if 'a' <= c <= 'f' then Some((c - 'a') as int + 10)
    else None
  }

  lemma HexByteValue(b: Byte)
    ensures DigitValue(HexByte(b)[0]) == Some(b / 16)
    ensures DigitValue(HexByte(b)[1]) == Some(b % 16)
  {
  }

  /** The inverse of `Hex`: back from lowercase hex text to bytes. */
  function UnHex(s: string): (r: Option<seq<Byte>>)
    decreases |s|
  {
    if s == [] then Some([])
    else if |s| == 1 then None
    else match (DigitValue(s[0]), DigitValue(s[1]))
      case (Some(hi), Some(lo)) =>
        (match UnHex(s[2..])
         case None => None
         case Some(rest) => Some([hi * 16 + lo] + rest))
      case _ => None
  }

  /** Decoding the hex of any byte string gives it back, so different
      digests always have different signatures. */
  lemma {:induction false} UnHexHex(bytes: seq<Byte>)
    ensures UnHex(Hex(bytes)) == Some(bytes)
  {
    if bytes != [] {
      var b := bytes[0];
      var s := Hex(bytes);
      assert s == HexByte(b) + Hex(bytes[1..]);
      assert s[0] == HexByte(b)[0] && s[1] == HexByte(b)[1];
      assert s[2..] == Hex(bytes[1..]);
      UnHexHex(bytes[1..]);
      HexByteValue(b);
      var hi, lo := b / 16, b % 16;
      assert hi * 16 + lo == b;
      assert DigitValue(s[0]) == Some(hi) && DigitValue(s[1]) == Some(lo);
      assert UnHex(s) == Some([b] + bytes[1..]);
      assert [b] + bytes[1..] == bytes;
    }
  }

  lemma HexInjective(a: seq<Byte>, b: seq<Byte>)
    requires Hex(a) == Hex(b)
    ensures a == b
  {
    UnHexHex(a);
    UnHexHex(b);
  }

  /** `_compute_signature(secret, body)`: 64 lowercase hex digits. */
  function ComputeSignature(secret: string, body: seq<Byte>, mac: (string, seq<Byte>) -> Digest): (sig: string)
    ensures |sig| == 2 * DigestLength
    ensures forall i :: 0 <= i < |sig| ==> IsHexDigit(sig[i])
    ensures UnHex(sig) == Some(mac(secret, body))
  {
    UnHexHex(mac(secret, body));
    Hex(mac(secret, body))
  }

  // ---------------------------------------------------------------------
  // The signature check

  const MissingSignature := HttpError(StatusUnauthorized, "Missing callback signature")
  const InvalidSignature := HttpError(StatusUnauthorized, "Invalid callback signature")

  /** A warning of `_verify_signature`; it carries no job, workflow or client. */
  function SignatureWarning(message: string): LogEvent {
    LogEvent(Warning, message, None, None, None, None, None)
  }

  /** `hmac.compare_digest` refuses a `str` argument with a character
      beyond ASCII (it raises `TypeError`); header values reach the route as
      Latin-1 text. */
  predicate IsAscii(s: string) {
    forall i :: 0 <= i < |s| ==> s[i] < 128 as char
  }

  /** The outcome of `_verify_signature`: it returns (Ok), or raises an
      HTTP error; with the warnings it logged on the way. */
  datatype Verdict = Verdict(outcome: Result<(), HttpError>, events: seq<LogEvent>)

  /** `_verify_signature(body, provided, job_id=None)` under the configured
      `secret` (`settings.callback_signing_secret`). Python's truthiness
      makes None and "" alike for both the secret and the header. */
  function VerifySignature(secret: Option<string>, provided: Option<string>, body: seq<Byte>,
                           mac: (string, seq<Byte>) -> Digest): (v: Verdict)
    // no secret: everything passes, with a warning
    ensures (secret.None? || secret.value == "") ==>
      v == Verdict(Ok(()), [SignatureWarning("callback signature not validated (secret missing)")])
    // a secret but no header: 401 Missing
    ensures secret.Some? && secret.value != "" && (provided.None? || provided.value == "") ==>
      v == Verdict(Err(MissingSignature), [SignatureWarning("callback signature missing")])
    // a secret and a header: it passes exactly when it is the signature of the raw body
    ensures secret.Some? && secret.value != "" && provided.Some? && provided.value != "" ==>
      (v.outcome.Ok? <==> provided.value == ComputeSignature(secret.value, body, mac))
    ensures secret.Some? && secret.value != "" && provided.Some? && provided.value != "" && IsAscii(provided.value) ==>
      (v.outcome.Err? ==> v == Verdict(Err(InvalidSignature), [SignatureWarning("callback signature invalid")]))
    ensures secret.Some? && secret.value != "" && provided.Some? && provided.value != "" && IsAscii(provided.value) ==>
      (v.outcome.Ok? ==> v.events == [])
  {
    if secret.None? || secret.value == "" then
      Verdict(Ok(()), [SignatureWarning("callback signature not validated (secret missing)")])
    else if provided.None? || provided.value == "" then
      Verdict(Err(MissingSignature), [SignatureWarning("callback signature missing")])
    else
      var expected := ComputeSignature(secret.value, body, mac);
      if !IsAscii(provided.value) then
        // compare_digest raises before comparing; the expected signature is
        // hex, so such a header would not have matched anyway
        Verdict(Err(InternalError), [])
      else if provided.value != expected then
        Verdict(Err(InvalidSignature), [SignatureWarning("callback signature invalid")])
      else
        Verdict(Ok(()), [])
  }

  /** With a secret set, the only header that passes is the signature of
      the body: a signature made for another body passes only if the two
      bodies have the same digest. */
  lemma SignatureBindsBody(secret: string, body: seq<Byte>, other: seq<Byte>,
                           mac: (string, seq<Byte>) -> Digest)
    requires secret != ""
    requires VerifySignature(Some(secret), Some(ComputeSignature(secret, other, mac)), body, mac).outcome.Ok?
    ensures mac(secret, body) == mac(secret, other)
  {
    HexInjective(mac(secret, body), mac(secret, other));
  }

  // ---------------------------------------------------------------------
  // The route

  const InvalidPayload := HttpError(StatusUnprocessable, "Invalid callback payload")

  /** The response of `receive_callback`: its JSON body or an error, and the
      log events. */
  datatype Reply = Reply(response: Result<Fields, HttpError>, events: seq<LogEvent>)

  function ReceivedEvent(c: JobCallback): LogEvent {
    LogEvent(Info, "callback received", Some(c.jobId), None, None,
             Some(CallbackStatusText(c.status)), c.executionId)
  }

  /** `receive_callback`: verify the signature over the raw body, then
      validate the body, then acknowledge with `{"status": "ok"}`. */
  function ReceiveCallback(body: seq<Byte>, header: Option<string>, secret: Option<string>,
                           mac: (string, seq<Byte>) -> Digest, decode: seq<Byte> -> Option<Json>,
                           fmt: Formats): (r: Reply)
    ensures VerifySignature(secret, header, body, mac).outcome.Err? ==>
      r == Reply(Err(VerifySignature(secret, header, body, mac).outcome.error), VerifySignature(secret, header, body, mac).events)
    ensures r.response.Ok? ==> r.response.value == [("status", Str("ok"))]
    ensures r.response.Ok? <==>
      VerifySignature(secret, header, body, mac).outcome.Ok? && decode(body).Some? && ParseCallbackDocument(decode(body).value, fmt).Ok?
  {
    var verdict := VerifySignature(secret, header, body, mac);
    if verdict.outcome.Err? then Reply(Err(verdict.outcome.error), verdict.events)
    else
      var parsed := if decode(body).None? then Err(NotAnObject) else ParseCallbackDocument(decode(body).value, fmt);
      match parsed
      case Err(_) => Reply(Err(InvalidPayload), verdict.events)
      case Ok(c) => Reply(Ok([("status", Str("ok"))]), verdict.events + [ReceivedEvent(c)])
  }

  /** The signature is checked before the body is looked at: a request that
      fails the check gets the same reply whatever the body decodes to,
      malformed or not. */
  lemma VerifyBeforeParse(body: seq<Byte>, header: Option<string>, secret: Option<string>,
                          mac: (string, seq<Byte>) -> Digest,
                          decode: seq<Byte> -> Option<Json>, decode': seq<Byte> -> Option<Json>, fmt: Formats)
    requires VerifySignature(secret, header, body, mac).outcome.Err?
    ensures ReceiveCallback(body, header, secret, mac, decode, fmt) == ReceiveCallback(body, header, secret, mac, decode', fmt)
    ensures ReceiveCallback(body, header, secret, mac, decode, fmt).response.Err?
  {
  }

  /** With a secret set, a bad or missing signature is a 401 even when the
      body is not a callback at all. */
  lemma BadSignatureBeatsBadPayload(body: seq<Byte>, header: Option<string>, secret: string,
                                    mac: (string, seq<Byte>) -> Digest,
                                    decode: seq<Byte> -> Option<Json>, fmt: Formats)
    requires secret != ""
    requires header.None? || (IsAscii(header.value) && header.value != ComputeSignature(secret, body, mac))
    requires decode(body).None?
    ensures ReceiveCallback(body, header, Some(secret), mac, decode, fmt).response.Err?
    ensures ReceiveCallback(body, header, Some(secret), mac, decode, fmt).response.error.status == StatusUnauthorized
  {
  }

  /** A correctly signed body that is not a valid callback is a 422. */
  lemma SignedButInvalidPayload(body: seq<Byte>, secret: string,
                                mac: (string, seq<Byte>) -> Digest,
                                decode: seq<Byte> -> Option<Json>, fmt: Formats)
    requires secret != ""
    requires decode(body).None? || ParseCallbackDocument(decode(body).value, fmt).Err?
    ensures ReceiveCallback(body, Some(ComputeSignature(secret, body, mac)), Some(secret), mac, decode, fmt).response
         == Err(InvalidPayload)
  {
    var sig := ComputeSignature(secret, body, mac);
    assert IsAscii(sig) by {
      forall i | 0 <= i < |sig| ensures sig[i] < 128 as char {
        assert IsHexDigit(sig[i]);
      }
    }
  }

  /** A correctly signed, valid callback is acknowledged with
      `{"status": "ok"}`, and its receipt is logged with its job id, status
      and execution id. */
  lemma SignedCallbackAccepted(body: seq<Byte>, secret: string,
                               mac: (string, seq<Byte>) -> Digest,
                               decode: seq<Byte> -> Option<Json>, fmt: Formats, c: JobCallback)
    requires secret != ""
    requires decode(body).Some? && ParseCallbackDocument(decode(body).value, fmt) == Ok(c)
    ensures ReceiveCallback(body, Some(ComputeSignature(secret, body, mac)), Some(secret), mac, decode, fmt)
         == Reply(Ok([("status", Str("ok"))]), [ReceivedEvent(c)])
  {
    var sig := ComputeSignature(secret, body, mac);
    assert IsAscii(sig) by {
      forall i | 0 <= i < |sig| ensures sig[i] < 128 as char {
        assert IsHexDigit(sig[i]);
      }
    }
  }

  /** Without a secret every request passes the check, signed or not, and
      the warning "callback signature not validated (secret missing)" is
      logged before the body is validated. */
  lemma UnconfiguredSecretAcceptsAll(body: seq<Byte>, header: Option<string>,
                                     mac: (string, seq<Byte>) -> Digest,
                                     decode: seq<Byte> -> Option<Json>, fmt: Formats)
    ensures var r := ReceiveCallback(body, header, None, mac, decode, fmt);
      && (r.response.Ok? || r.response == Err(InvalidPayload))
      && r.events[0] == SignatureWarning("callback signature not validated (secret missing)")
  {
  }
}
