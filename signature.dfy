/** Webhook signature check of bot.py (`verify_signature`).
    HMAC-SHA256 itself is not modelled: it is the parameter `mac`, the
    digest of a message under a key. What is modelled is the layout of
    the signed message, the hex rendering of the digest, the "sha256="
    prefix and the accept-iff-equal comparison. */
module Signature {
  import opened Base
  import Text
  import Settings

  /** Header names the platform uses (bot.py reads them by exact name). */
  const MessageIdHeader: string := "Twitch-Eventsub-Message-Id"
  const TimestampHeader: string := "Twitch-Eventsub-Message-Timestamp"
  const SignatureHeader: string := "Twitch-Eventsub-Message-Signature"

  const Prefix: string := "sha256="

  /** HMAC-SHA256 keyed by the first argument over the UTF-8 bytes of the
      second: the raw digest bytes. */
  type Mac = (string, string) -> seq<byte>

  /** The lower-case hexadecimal digit of a nibble. */
  function HexDigit(n: int): (c: char)
    requires 0 <= n < 16
    ensures c as int < 128
    ensures ('0' <= c <= '9') || ('a' <= c <= 'f')
  {
    if n < 10 then ('0' as int + n) as char else ('a' as int + n - 10) as char
  }

  /** `hexdigest()`: two lower-case hex digits per byte, high nibble first. */
  function HexDigest(d: seq<byte>): (h: string)
    ensures |h| == 2 * |d|
    ensures forall k :: 0 <= k < |d| ==>
              h[2 * k] == HexDigit(d[k] as int / 16) && h[2 * k + 1] == HexDigit(d[k] as int % 16)
  {
    if d == [] then []
    else [HexDigit(d[0] as int / 16), HexDigit(d[0] as int % 16)] + HexDigest(d[1..])
  }

  /** The hex rendering loses nothing: different digests never look alike. */
  lemma HexDigestInjective(d1: seq<byte>, d2: seq<byte>)
    requires HexDigest(d1) == HexDigest(d2)
    ensures d1 == d2
  {
    forall k | 0 <= k < |d1| ensures d1[k] == d2[k] {
      // equal digit pairs give equal nibbles, and the nibbles fix the byte
      var x, y := d1[k] as int, d2[k] as int;
      assert x == 16 * (x / 16) + x % 16 && y == 16 * (y / 16) + y % 16;
    }
  }

  /** A hex digest is plain ASCII. */
  lemma HexDigestIsAscii(d: seq<byte>)
    ensures Text.IsAscii(HexDigest(d))
  {
  }

  /** The signed message: message id, then timestamp, then body, with no
      separator between them (bot.py line 62). */
  function SignedMessage(id: string, timestamp: string, body: string): (m: string)
    ensures |m| == |id| + |timestamp| + |body|
    ensures m[..|id|] == id
    ensures m[|id|..|id| + |timestamp|] == timestamp
    ensures m[|id| + |timestamp|..] == body
  {
    id + timestamp + body
  }

  /** Changing any single part of the signed message, keeping the other
      two, changes the message. */
  lemma SignedMessageSeparatesParts(id: string, ts: string, body: string, id': string, ts': string, body': string)
    ensures SignedMessage(id', ts, body) == SignedMessage(id, ts, body) ==> id' == id
    ensures SignedMessage(id, ts', body) == SignedMessage(id, ts, body) ==> ts' == ts
    ensures SignedMessage(id, ts, body') == SignedMessage(id, ts, body) ==> body' == body
  {
  }

  /** With no separator, the boundary between id and timestamp is not
      part of what is signed: moving characters across it keeps the
      message, so such a change cannot be detected by the signature. */
  lemma SignedMessageBoundaryIsUnsigned(id: string, x: string, ts: string, body: string)
    ensures SignedMessage(id + x, ts, body) == SignedMessage(id, x + ts, body)
  {
  }

  /** The signature a correct sender puts in the header. */
  function ExpectedSignature(mac: Mac, message: string): (h: string)
    ensures |h| == |Prefix| + 2 * |mac(Settings.Secret, message)|
    ensures h[..|Prefix|] == Prefix
    ensures h[|Prefix|..] == HexDigest(mac(Settings.Secret, message))
    ensures Text.IsAscii(h)
  {
    HexDigestIsAscii(mac(Settings.Secret, message));
    Prefix + HexDigest(mac(Settings.Secret, message))
  }

  /** `hmac.compare_digest` on two strings: it refuses (TypeError) when
      either contains a non-ASCII character, and otherwise answers whether
      they are equal. Its timing behaviour is not modelled. */
  function CompareDigest(a: string, b: string): (r: Result<bool>)
    ensures r.Err? <==> !(Text.IsAscii(a) && Text.IsAscii(b))
    ensures r.Err? ==> r.fault == TypeError
    ensures r.Ok? ==> (r.value <==> a == b)
  {
    if Text.IsAscii(a) && Text.IsAscii(b) then Ok(a == b) else Err(TypeError)
  }

  /** `verify_signature(request, body)`: read the three headers in order
      (a missing one raises KeyError), rebuild the expected signature and
      compare it with the header's. */
  function VerifySignature(mac: Mac, headers: map<string, string>, body: string): (r: Result<bool>)
    // a missing header raises, naming the first one missing
    ensures MessageIdHeader !in headers ==> r == Err(KeyError(MessageIdHeader))
    ensures MessageIdHeader in headers && TimestampHeader !in headers ==> r == Err(KeyError(TimestampHeader))
    ensures MessageIdHeader in headers && TimestampHeader in headers && SignatureHeader !in headers ==>
              r == Err(KeyError(SignatureHeader))
    // with all three present, it raises only on a non-ASCII signature header ...
    ensures MessageIdHeader in headers && TimestampHeader in headers && SignatureHeader in headers ==>
              (r.Err? <==> !Text.IsAscii(headers[SignatureHeader]))
    // ... and accepts exactly the signature a correct sender computes
    ensures r == Ok(true) <==>
              && MessageIdHeader in headers && TimestampHeader in headers && SignatureHeader in headers
              && headers[SignatureHeader] ==
                   ExpectedSignature(mac, SignedMessage(headers[MessageIdHeader], headers[TimestampHeader], body))
  {
    if MessageIdHeader !in headers then Err(KeyError(MessageIdHeader))
    else if TimestampHeader !in headers then Err(KeyError(TimestampHeader))
    else if SignatureHeader !in headers then Err(KeyError(SignatureHeader))
    else
      var message := SignedMessage(headers[MessageIdHeader], headers[TimestampHeader], body);
      CompareDigest(ExpectedSignature(mac, message), headers[SignatureHeader])
  }

  /** An accepted header is "sha256=" followed by the hex digest of the
      message under the shared secret. */
  lemma AcceptedSignatureShape(mac: Mac, headers: map<string, string>, body: string)
    requires VerifySignature(mac, headers, body) == Ok(true)
    ensures var sig := headers[SignatureHeader];
      var message := SignedMessage(headers[MessageIdHeader], headers[TimestampHeader], body);
      && |Prefix| <= |sig| && sig[..|Prefix|] == "sha256="
      && sig[|Prefix|..] == HexDigest(mac(Settings.Secret, message))
  {
  }

  /** A request signed for one (id, timestamp, body) and then changed in
      one part is rejected, provided the two messages' digests differ (the
      collision resistance HMAC-SHA256 is trusted for). */
  lemma TamperedRequestRejected(mac: Mac, id: string, ts: string, body: string,
                                headers: map<string, string>, body': string)
    requires MessageIdHeader in headers && TimestampHeader in headers
    requires headers[SignatureHeader := ExpectedSignature(mac, SignedMessage(id, ts, body))] == headers
    requires SignedMessage(headers[MessageIdHeader], headers[TimestampHeader], body') != SignedMessage(id, ts, body)
    requires mac(Settings.Secret, SignedMessage(headers[MessageIdHeader], headers[TimestampHeader], body'))
             != mac(Settings.Secret, SignedMessage(id, ts, body))
    ensures VerifySignature(mac, headers, body') == Ok(false)
  {
  }

}
