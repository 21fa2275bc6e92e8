/**
 * Payment request signing for the payment gateway: a fixed-shape payload,
 * Base64-encoded, and a checksum that is the lower-case hex SHA-256 of the
 * payload, the endpoint path, the salt key and the salt index, followed by
 * "###" and the salt index.
 */
module PaymentService {
  import opened Common
  import Base64

  const PHONEPE_API_URL := "https://api.phonepe.com/apis/hermes/pg/v1/pay"
  const SALT_KEY := "04264086-93dd-41b6-85b6-2d7e8deae0b4"
  const MERCHANT_ID := "M1VHM1S7GVTQ"
  const SALT_INDEX: nat := 1
  const PAY_PATH := "/pg/v1/pay"

  // ---------------------------------------------------------------- hexadecimal

  predicate IsLowerHexDigit(c: char) {
    '0' <= c <= '9' || 'a' <= c <= 'f'
  }

  /** The lower-case digit of a value below 16. */
  function HexDigit(d: int): (c: char)
    requires 0 <= d < 16
    ensures IsLowerHexDigit(c)
  {
    if d < 10 then (48 + d) as char else (87 + d) as char
  }

  /** The value of a lower-case hex digit. */
  function HexValue(c: char): (v: int)
    requires IsLowerHexDigit(c)
    ensures 0 <= v < 16 && HexDigit(v) == c
  {
    if c <= '9' then c as int - 48 else c as int - 87
  }

  /** `Integer.toHexString` of a value in [0, 256): lower-case, without leading zeros. */
  function ToHexString(n: byte): (s: string)
    ensures |s| == 1 <==> n < 16
    ensures |s| == 1 || |s| == 2
  {
    if n < 16 then [HexDigit(n)] else [HexDigit(n / 16), HexDigit(n % 16)]
  }

  /** The reference encoding: position k holds the high (k even) or low (k odd) nibble of byte k / 2. */
  function HexEncode(bytes: seq<JavaByte>): (s: string)
    ensures |s| == 2 * |bytes|
    ensures forall k | 0 <= k < |s| :: IsLowerHexDigit(s[k])
  {
    seq(2 * |bytes|, k requires 0 <= k < 2 * |bytes| =>
      if k % 2 == 0 then HexDigit(Unsigned(bytes[k / 2]) / 16) else HexDigit(Unsigned(bytes[k / 2]) % 16))
  }

  /** Reads lower-case hex text back as bytes, two digits per byte. */
  function HexDecode(s: string): seq<byte>
    requires |s| % 2 == 0
    requires forall k | 0 <= k < |s| :: IsLowerHexDigit(s[k])
  {
    seq(|s| / 2, i requires 0 <= i < |s| / 2 => HexValue(s[2 * i]) * 16 + HexValue(s[2 * i + 1]))
  }

  /** `String.toLowerCase`, with ASCII case mapping. */
  function ToLowerCase(s: string): (r: string)
    ensures |r| == |s|
  {
    seq(|s|, i requires 0 <= i < |s| => ToLower(s[i]))
  }

  lemma HexValueOfDigit(d: int)
    requires 0 <= d < 16
    ensures HexValue(HexDigit(d)) == d
  {
  }

  lemma HexEncodeAppend(bytes: seq<JavaByte>, b: JavaByte)
    ensures HexEncode(bytes + [b]) == HexEncode(bytes) + [HexDigit(Unsigned(b) / 16), HexDigit(Unsigned(b) % 16)]
  {
    var s, t := HexEncode(bytes + [b]), HexEncode(bytes) + [HexDigit(Unsigned(b) / 16), HexDigit(Unsigned(b) % 16)];
    forall k | 0 <= k < |s|
      ensures s[k] == t[k]
    {
      if k < 2 * |bytes| {
        assert (bytes + [b])[k / 2] == bytes[k / 2];
      } else {
        assert (bytes + [b])[k / 2] == b;
      }
    }
  }

  /** `bytesToHex`: each byte as `Integer.toHexString(0xff & b)`, with a '0' in front of a single digit. */
  method BytesToHex(bytes: seq<JavaByte>) returns (hexString: string)
    ensures hexString == HexEncode(bytes)
  {
    hexString := "";
    for i := 0 to |bytes|
      invariant hexString == HexEncode(bytes[..i])
    {
      var u := Unsigned(bytes[i]);
      var hex := ToHexString(u);
      if |hex| == 1 {
        hexString := hexString + ['0'];
      }
      hexString := hexString + hex;
      HexEncodeAppend(bytes[..i], bytes[i]);
      assert bytes[..i + 1] == bytes[..i] + [bytes[i]];
    }
    assert bytes[..|bytes|] == bytes;
  }

  /** Each pair of hex digits reads back as `0xff & b` for its byte: the encoding loses nothing. */
  lemma {:induction false} HexDecodeEncode(bytes: seq<JavaByte>)
    ensures HexDecode(HexEncode(bytes)) == seq(|bytes|, i requires 0 <= i < |bytes| => Unsigned(bytes[i]))
  {
    var s := HexEncode(bytes);
    forall i | 0 <= i < |bytes|
      ensures HexDecode(s)[i] == Unsigned(bytes[i])
    {
      HexEncodeAt(bytes, i);
      var u := Unsigned(bytes[i]);
      HexValueOfDigit(u / 16);
      HexValueOfDigit(u % 16);
    }
  }

  /** The two digits byte `i` contributes to the hex text. */
  lemma HexEncodeAt(bytes: seq<JavaByte>, i: int)
    requires 0 <= i < |bytes|
    ensures HexEncode(bytes)[2 * i] == HexDigit(Unsigned(bytes[i]) / 16)
    ensures HexEncode(bytes)[2 * i + 1] == HexDigit(Unsigned(bytes[i]) % 16)
  {
    assert (2 * i) % 2 == 0 && (2 * i) / 2 == i;
    assert (2 * i + 1) % 2 == 1 && (2 * i + 1) / 2 == i;
  }

  /** Different byte sequences have different hex encodings. */
  lemma HexEncodeInjective(a: seq<JavaByte>, b: seq<JavaByte>)
    requires HexEncode(a) == HexEncode(b)
    ensures a == b
  {
    HexDecodeEncode(a);
    HexDecodeEncode(b);
    assert |a| == |b|;
    forall i | 0 <= i < |a|
      ensures a[i] == b[i]
    {
      assert HexDecode(HexEncode(a))[i] == Unsigned(a[i]);
      assert HexDecode(HexEncode(b))[i] == Unsigned(b[i]);
    }
  }

  /** Lower-casing the output of `bytesToHex` changes nothing. */
  lemma LowerCaseHex(bytes: seq<JavaByte>)
    ensures ToLowerCase(HexEncode(bytes)) == HexEncode(bytes)
  {
    var s := HexEncode(bytes);
    forall k | 0 <= k < |s|
      ensures ToLowerCase(s)[k] == s[k]
    {
      assert IsLowerHexDigit(s[k]);
    }
  }

  // ---------------------------------------------------------------- checksum

  /** A SHA-256 digest: 32 Java bytes. */
  type Digest = d: seq<JavaByte> | |d| == 32 witness seq(32, i => 0)

  /** `String.getBytes(UTF_8)` of one character. */
  function Utf8Char(c: char): (r: seq<byte>)
    ensures 1 <= |r| <= 4
    ensures c as int < 128 ==> r == [c as int]
  {
    var n := c as int;
    if n < 0x80 then [n]
    else if n < 0x800 then [0xC0 + n / 64, 0x80 + n % 64]
    else if n < 0x1_0000 then [0xE0 + n / 4096, 0x80 + (n / 64) % 64, 0x80 + n % 64]
    else [0xF0 + n / 262144, 0x80 + (n / 4096) % 64, 0x80 + (n / 64) % 64, 0x80 + n % 64]
  }

  /** `String.getBytes(UTF_8)`. */
  function Utf8(s: string): seq<byte>
  {
    if |s| == 0 then [] else Utf8Char(s[0]) + Utf8(s[1..])
  }

  /** Java's decimal rendering of a non-negative int. */
  function Decimal(n: nat): string
  {
    if n < 10 then [(48 + n) as char] else Decimal(n / 10) + [(48 + n % 10) as char]
  }

  /** The text the checksum hashes: payload, endpoint path, salt key, "###", salt index. */
  function DataToHash(payload: string): string {
    payload + PAY_PATH + SALT_KEY + "###" + Decimal(SALT_INDEX)
  }

  /**
   * The X-VERIFY checksum of a payload, with `sha256` the digest of UTF-8
   * bytes: 64 lower-case hex digits, then "###1".
   */
  function Checksum(payload: string, sha256: seq<byte> -> Digest): (r: string)
    ensures |r| == 68 && r[64..] == "###1"
    ensures forall k | 0 <= k < 64 :: IsLowerHexDigit(r[k])
  {
    HexEncode(sha256(Utf8(DataToHash(payload)))) + "###" + Decimal(SALT_INDEX)
  }

  /** `calculateChecksum`. */
  method CalculateChecksum(payload: string, sha256: seq<byte> -> Digest) returns (checksum: string)
    ensures checksum == Checksum(payload, sha256)
    ensures checksum[..64] == HexEncode(sha256(Utf8(payload + "/pg/v1/pay" + SALT_KEY + "###1")))
  {
    var dataToHash := payload + PAY_PATH + SALT_KEY + "###" + Decimal(SALT_INDEX);
    assert Decimal(SALT_INDEX) == "1";
    assert dataToHash == payload + "/pg/v1/pay" + SALT_KEY + "###1";
    var hash := sha256(Utf8(dataToHash));
    var hex := BytesToHex(hash);
    LowerCaseHex(hash);
    checksum := ToLowerCase(hex) + "###" + Decimal(SALT_INDEX);
  }

  /** Two payloads with the same checksum hashed to the same digest: the hex part loses nothing. */
  lemma ChecksumDeterminesDigest(p1: string, p2: string, sha256: seq<byte> -> Digest)
    requires Checksum(p1, sha256) == Checksum(p2, sha256)
    ensures sha256(Utf8(DataToHash(p1))) == sha256(Utf8(DataToHash(p2)))
  {
    var d1, d2 := sha256(Utf8(DataToHash(p1))), sha256(Utf8(DataToHash(p2)));
    assert HexEncode(d1) == Checksum(p1, sha256)[..64];
    assert HexEncode(d2) == Checksum(p2, sha256)[..64];
    HexEncodeInjective(d1, d2);
  }

  // ---------------------------------------------------------------- payload

  /** A Java int. */
  type int32 = x: int | -0x8000_0000 <= x < 0x8000_0000

  /** Java int arithmetic: the result reduced to 32 bits, two's complement. */
  function WrapInt32(x: int): (r: int32)
    ensures -0x8000_0000 <= x < 0x8000_0000 ==> r == x
    ensures (r - x) % 0x1_0000_0000 == 0
  {
    var m := x % 0x1_0000_0000;
    if m < 0x8000_0000 then m else m - 0x1_0000_0000
  }

  /** The JSON values the payload map holds. */
  datatype Json = JNull | JString(text: string) | JInt(n: int) | JObject(fields: map<string, Json>)

  /** A Java string field as Jackson writes it: null stays null. */
  function JsonText(s: Option<string>): Json {
    if s.Some? then JString(s.value) else JNull
  }

  datatype PaymentRequest = PaymentRequest(
    merchantTransactionId: Option<string>,
    merchantUserId: Option<string>,
    name: Option<string>,
    amount: int32,
    mobileNumber: Option<string>)

  const PAYLOAD_KEYS: set<string> := {"merchantId", "merchantTransactionId", "merchantUserId", "name",
                                      "amount", "redirectMode", "mobileNumber", "paymentInstrument"}

  /** The payment map the payload serialises: a fixed key set, the amount in hundredths. */
  function PaymentPayload(request: PaymentRequest): (data: map<string, Json>)
    ensures data.Keys == PAYLOAD_KEYS
    ensures data["merchantId"] == JString(MERCHANT_ID)
    ensures data["merchantTransactionId"] == JsonText(request.merchantTransactionId)
    ensures data["merchantUserId"] == JsonText(request.merchantUserId)
    ensures data["name"] == JsonText(request.name)
    ensures data["amount"] == JInt(WrapInt32(request.amount * 100))
    ensures data["redirectMode"] == JString("POST")
    ensures data["mobileNumber"] == JsonText(request.mobileNumber)
    ensures data["paymentInstrument"] == JObject(map["type" := JString("PAY_PAGE")])
  {
    map["merchantId" := JString(MERCHANT_ID),
        "merchantTransactionId" := JsonText(request.merchantTransactionId),
        "merchantUserId" := JsonText(request.merchantUserId),
        "name" := JsonText(request.name),
        "amount" := JInt(WrapInt32(request.amount * 100)),
        "redirectMode" := JString("POST"),
        "mobileNumber" := JsonText(request.mobileNumber),
        "paymentInstrument" := JObject(map["type" := JString("PAY_PAGE")])]
  }

  /** Amounts whose hundredfold fits a Java int are scaled exactly. */
  lemma AmountScaled(request: PaymentRequest)
    requires -21474836 <= request.amount <= 21474836
    ensures PaymentPayload(request)["amount"] == JInt(request.amount * 100)
  {
  }

  /**
   * `createBase64EncodedPayload`: fills the payment map one entry at a time,
   * serialises it with `serialize` (JSON text as bytes) and Base64-encodes the bytes.
   */
  method CreateBase64EncodedPayload(request: PaymentRequest, serialize: map<string, Json> -> seq<byte>)
    returns (payload: string)
    ensures payload == Base64.Encode(serialize(PaymentPayload(request)))
    ensures Base64.Decode(payload) == Some(serialize(PaymentPayload(request)))
    ensures |payload| == 4 * ((|serialize(PaymentPayload(request))| + 2) / 3)
    ensures forall k | 0 <= k < |payload| :: Base64.IsAlphabetChar(payload[k]) || payload[k] == Base64.PAD
  {
    var data: map<string, Json> := map[];
    data := data["merchantId" := JString(MERCHANT_ID)];
    data := data["merchantTransactionId" := JsonText(request.merchantTransactionId)];
    data := data["merchantUserId" := JsonText(request.merchantUserId)];
    data := data["name" := JsonText(request.name)];
    data := data["amount" := JInt(WrapInt32(request.amount * 100))];
    data := data["redirectMode" := JString("POST")];
    data := data["mobileNumber" := JsonText(request.mobileNumber)];
    var paymentInstrument: map<string, Json> := map[];
    paymentInstrument := paymentInstrument["type" := JString("PAY_PAGE")];
    data := data["paymentInstrument" := JObject(paymentInstrument)];
    assert data == PaymentPayload(request);
    var bytes := serialize(data);
    payload := Base64.Encode(bytes);
    Base64.DecodeEncode(bytes);
    Base64.EncodeLength(bytes);
    Base64.EncodeAlphabet(bytes);
  }

  /**
   * With an injective serialiser, equal payloads come from requests that agree
   * on every field the map carries (the amount as a Java int product).
   */
  lemma PayloadDeterminesRequest(r1: PaymentRequest, r2: PaymentRequest, serialize: map<string, Json> -> seq<byte>)
    requires forall a, b :: serialize(a) == serialize(b) ==> a == b
    requires Base64.Encode(serialize(PaymentPayload(r1))) == Base64.Encode(serialize(PaymentPayload(r2)))
    ensures r1.merchantTransactionId == r2.merchantTransactionId && r1.merchantUserId == r2.merchantUserId
    ensures r1.name == r2.name && r1.mobileNumber == r2.mobileNumber
    ensures WrapInt32(r1.amount * 100) == WrapInt32(r2.amount * 100)
  {
    Base64.DecodeEncode(serialize(PaymentPayload(r1)));
    Base64.DecodeEncode(serialize(PaymentPayload(r2)));
    var d1, d2 := PaymentPayload(r1), PaymentPayload(r2);
    assert d1 == d2;
    assert d1["merchantTransactionId"] == d2["merchantTransactionId"];
    assert d1["merchantUserId"] == d2["merchantUserId"];
    assert d1["name"] == d2["name"];
    assert d1["mobileNumber"] == d2["mobileNumber"];
    assert d1["amount"] == d2["amount"];
  }

  // ---------------------------------------------------------------- gateway call

  datatype HttpRequest = HttpRequest(url: string, headers: seq<(string, string)>, body: string)
  datatype HttpResponse = HttpResponse(code: int, body: string)

  /** OkHttp's `isSuccessful`: a 2xx status. */
  predicate IsSuccessful(code: int) {
    200 <= code < 300
  }

  /** The signed POST: JSON body `{"request":"<payload>"}`, the checksum in X-VERIFY. */
  function PaymentApiRequest(payload: string, checksum: string): (r: HttpRequest)
    ensures r.url == PHONEPE_API_URL && r.body == "{\"request\":\"" + payload + "\"}"
    ensures ("accept", "application/json") in r.headers && ("Content-Type", "application/json") in r.headers
    ensures ("X-VERIFY", checksum) in r.headers
  {
    HttpRequest(PHONEPE_API_URL,
                [("accept", "application/json"), ("Content-Type", "application/json"), ("X-VERIFY", checksum)],
                "{\"request\":\"" + payload + "\"}")
  }

  /** The signed request carries its payload and checksum unambiguously: it determines both. */
  lemma PaymentApiRequestDeterminesSignature(payload1: string, checksum1: string, payload2: string, checksum2: string)
    requires PaymentApiRequest(payload1, checksum1) == PaymentApiRequest(payload2, checksum2)
    ensures payload1 == payload2 && checksum1 == checksum2
  {
    var prefix, suffix := "{\"request\":\"", "\"}";
    var body := PaymentApiRequest(payload1, checksum1).body;
    assert body == prefix + payload1 + suffix == prefix + payload2 + suffix;
    assert |payload1| == |payload2|;
    assert payload1 == body[|prefix|..|body| - |suffix|];
    assert payload2 == body[|prefix|..|body| - |suffix|];
    assert PaymentApiRequest(payload1, checksum1).headers[2] == ("X-VERIFY", checksum1);
    assert PaymentApiRequest(payload2, checksum2).headers[2] == ("X-VERIFY", checksum2);
  }

  /**
   * `makePaymentApiRequest`: `send` is the HTTP exchange, None when it fails
   * with an I/O error. The response body on a 2xx status, None where the
   * source throws.
   */
  method MakePaymentApiRequest(payload: string, checksum: string, send: HttpRequest -> Option<HttpResponse>)
    returns (responseBody: Option<string>)
    ensures var reply := send(PaymentApiRequest(payload, checksum));
            responseBody.Some? <==> reply.Some? && IsSuccessful(reply.value.code)
    ensures responseBody.Some? ==> responseBody.value == send(PaymentApiRequest(payload, checksum)).value.body
  {
    var response := send(PaymentApiRequest(payload, checksum));
    if response.Some? && IsSuccessful(response.value.code) {
      return Some(response.value.body);
    }
    return None;
  }

  /**
   * `initiatePayment`: the gateway's redirect URL, or None (null) when any
   * step fails. `redirectUrl` parses a response body and follows
   * data.instrumentResponse.redirectInfo.url, None where that throws or
   * meets a null.
   */
  method InitiatePayment(request: PaymentRequest, serialize: map<string, Json> -> seq<byte>,
                         sha256: seq<byte> -> Digest, send: HttpRequest -> Option<HttpResponse>,
                         redirectUrl: string -> Option<string>)
    returns (url: Option<string>)
    ensures var payload := Base64.Encode(serialize(PaymentPayload(request)));
            var reply := send(PaymentApiRequest(payload, Checksum(payload, sha256)));
            url == if reply.Some? && IsSuccessful(reply.value.code) then redirectUrl(reply.value.body) else None
    ensures url.Some? ==> var payload := Base64.Encode(serialize(PaymentPayload(request)));
            var reply := send(PaymentApiRequest(payload, Checksum(payload, sha256)));
            reply.Some? && IsSuccessful(reply.value.code)
  {
    var payload := CreateBase64EncodedPayload(request, serialize);
    var checksum := CalculateChecksum(payload, sha256);
    var response := MakePaymentApiRequest(payload, checksum, send);
    if response.None? {
      return None;
    }
    url := redirectUrl(response.value);
  }
}
