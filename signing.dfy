/** Request signing, timestamp scheme: the signed payload is the URL, the
    request time, the decimal netuid and the body, concatenated; the headers
    carry the time, the base64 signature, the netuid and the signer's address. */
module Signing {
  import opened Values
  import opened Decimal

  newtype byte = x: int | 0 <= x < 256

  /** The wallet's hotkey: its SS58 address and its sr25519 signing function
      over the UTF-8 bytes of a payload. */
  datatype Hotkey = Hotkey(ss58Address: string, sign: string -> seq<byte>)

  const DatetimeHeader: string := "X-Request-Datetime"
  const SignatureHeader: string := "X-Request-Signature"
  const NetuidHeader: string := "X-Netuid"
  const AddressHeader: string := "X-ss58-Address"

  /** The string whose UTF-8 bytes are signed: it starts with the URL, ends
      with the body, and holds the time and `str(netuid)` in between. */
  function Payload(url: string, requestTime: string, netuid: int, data: string): (p: string)
    ensures |p| == |url| + |requestTime| + |IntToString(netuid)| + |data|
    ensures p[..|url|] == url && p[|url|..|url| + |requestTime|] == requestTime
    ensures p[|url| + |requestTime|..|p| - |data|] == IntToString(netuid)
    ensures p[|p| - |data|..] == data
  {
    url + requestTime + IntToString(netuid) + data
  }

  /** `get_signature_headers`, given the formatted clock reading. */
  function SignatureHeaders(key: Hotkey, b64encode: seq<byte> -> string, netuid: int,
                            url: string, data: string, requestTime: string): (h: map<string, string>)
    ensures h.Keys == {DatetimeHeader, SignatureHeader, NetuidHeader, AddressHeader}
    ensures h[DatetimeHeader] == requestTime
    ensures h[NetuidHeader] == IntToString(netuid) && DecimalValue(h[NetuidHeader]) == Some(netuid)
    ensures h[AddressHeader] == key.ss58Address
    ensures h[SignatureHeader] == b64encode(key.sign(Payload(url, requestTime, netuid, data)))
  {
    IntToStringRoundTrip(netuid);
    map[DatetimeHeader := requestTime,
        SignatureHeader := b64encode(key.sign(Payload(url, requestTime, netuid, data))),
        NetuidHeader := IntToString(netuid),
        AddressHeader := key.ss58Address]
  }

  /** The payload a receiver rebuilds from the request line, the body and the
      headers, when both headers it needs are present. */
  function ReconstructPayload(url: string, data: string, h: map<string, string>): Option<string> {
    if DatetimeHeader in h && NetuidHeader in h then Some(url + h[DatetimeHeader] + h[NetuidHeader] + data)
    else None
  }

  /** The headers carry exactly the time and netuid that went into the signed
      payload, so a receiver rebuilds the payload that was signed. */
  lemma HeadersRebuildPayload(key: Hotkey, b64encode: seq<byte> -> string, netuid: int,
                              url: string, data: string, requestTime: string)
    ensures var h := SignatureHeaders(key, b64encode, netuid, url, data, requestTime);
      ReconstructPayload(url, data, h) == Some(Payload(url, requestTime, netuid, data))
  {
  }

  lemma CancelLeft(a: string, b: string, c: string)
    ensures a + b == a + c <==> b == c
  {
    if a + b == a + c {
      assert b == (a + b)[|a|..];
      assert c == (a + c)[|a|..];
    }
  }

  lemma CancelRight(a: string, b: string, c: string)
    ensures a + c == b + c <==> a == b
  {
    if a + c == b + c {
      assert a == (a + c)[..|a|];
      assert b == (b + c)[..|b|];
    }
  }

  /** With the rest fixed, the payload determines the URL. */
  lemma PayloadBindsUrl(u1: string, u2: string, requestTime: string, netuid: int, data: string)
    ensures Payload(u1, requestTime, netuid, data) == Payload(u2, requestTime, netuid, data) <==> u1 == u2
  {
    var p1, p2 := Payload(u1, requestTime, netuid, data), Payload(u2, requestTime, netuid, data);
    if p1 == p2 {
      assert |u1| == |u2|;
      assert u1 == p1[..|u1|] && u2 == p2[..|u2|];
    }
  }

  /** With the rest fixed, the payload determines the body. */
  lemma PayloadBindsBody(url: string, requestTime: string, netuid: int, d1: string, d2: string)
    ensures Payload(url, requestTime, netuid, d1) == Payload(url, requestTime, netuid, d2) <==> d1 == d2
  {
    CancelLeft(url + requestTime + IntToString(netuid), d1, d2);
  }

  /** With the rest fixed, the payload determines the netuid. */
  lemma PayloadBindsNetuid(url: string, requestTime: string, n1: int, n2: int, data: string)
    ensures Payload(url, requestTime, n1, data) == Payload(url, requestTime, n2, data) <==> n1 == n2
  {
    var s1, s2 := IntToString(n1), IntToString(n2);
    if Payload(url, requestTime, n1, data) == Payload(url, requestTime, n2, data) {
      CancelRight(url + requestTime + s1, url + requestTime + s2, data);
      CancelLeft(url + requestTime, s1, s2);
      IntToStringInjective(n1, n2);
    }
  }
}
