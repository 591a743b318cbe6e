/** The login side of the router client in src/fritz.rs: the legacy challenge-response
    token (UTF-16LE bytes of `challenge-password` with every code unit above 255 folded
    to '.', hashed with MD5 and written as lowercase hex) and the session an
    authenticated client keeps.

    MD5 (RFC 1321) is not modelled: every operation that hashes takes the digest
    function as a parameter, and `IsDigest` says it yields 16 bytes. */
module Fritz {
  import opened Wrappers
  import opened Ints

  // UTF-16

  /** The UTF-16 code units of one character: itself below U+10000, otherwise a
      high and a low surrogate that together give the character back. */
  function CodeUnits(c: char): (u: seq<u16>)
    ensures c as int < 0x1_0000 ==> u == [c as int]
    ensures c as int >= 0x1_0000 ==>
      |u| == 2 && 0xD800 <= u[0] < 0xDC00 && 0xDC00 <= u[1] < 0xE000 &&
      0x1_0000 + (u[0] as int - 0xD800) * 0x400 + (u[1] as int - 0xDC00) == c as int
  {
    var v := c as int;
    if v < 0x1_0000 then [v]
    else
      var w := v - 0x1_0000;
      [0xD800 + w / 0x400, 0xDC00 + w % 0x400]
  }

  /** The UTF-16 code units of a string (`str::encode_utf16`). */
  function Utf16(s: string): seq<u16> {
    if |s| == 0 then [] else CodeUnits(s[0]) + Utf16(s[1..])
  }

  lemma {:induction false} Utf16Append(a: string, b: string)
    ensures Utf16(a + b) == Utf16(a) + Utf16(b)
  {
    if |a| > 0 {
      assert (a + b)[1..] == a[1..] + b;
      Utf16Append(a[1..], b);
    } else {
      assert a + b == b;
    }
  }

  // The hash input

  /** The code unit that is hashed: units above 255 become '.' (0x2e). */
  function FoldUnit(u: u16): u16 {
    if u > 255 then 0x2e else u
  }

  /** The two little-endian bytes of a code unit (`u16::to_le_bytes`). */
  function LeBytes(u: u16): (b: seq<byte>)
    ensures |b| == 2 && b[0] as int + 0x100 * b[1] as int == u as int
  {
    [u % 0x100, u / 0x100]
  }

  /** The bytes written for a sequence of code units. */
  function HashBytes(units: seq<u16>): seq<byte> {
    if |units| == 0 then [] else HashBytes(units[..|units| - 1]) + LeBytes(FoldUnit(units[|units| - 1]))
  }

  /** The bytes that are hashed for the text `s`. */
  function HashInput(s: string): seq<byte> {
    HashBytes(Utf16(s))
  }

  /** Two bytes per code unit: the unit itself when it is at most 255, 0x2e otherwise,
      and then a zero byte. */
  lemma {:induction false} HashBytesShape(units: seq<u16>)
    ensures |HashBytes(units)| == 2 * |units|
    ensures forall i :: 0 <= i < |units| ==>
      HashBytes(units)[2 * i] == (if units[i] <= 255 then units[i] else 0x2e) && HashBytes(units)[2 * i + 1] == 0
  {
    if |units| > 0 {
      var init := units[..|units| - 1];
      HashBytesShape(init);
      forall i | 0 <= i < |init|
        ensures units[i] == init[i]
      {
      }
    }
  }

  lemma {:induction false} HashBytesAppend(a: seq<u16>, b: seq<u16>)
    ensures HashBytes(a + b) == HashBytes(a) + HashBytes(b)
    decreases |b|
  {
    if |b| > 0 {
      assert (a + b)[..|a + b| - 1] == a + b[..|b| - 1];
      HashBytesAppend(a, b[..|b| - 1]);
    } else {
      assert a + b == a;
    }
  }

  /** The encoding loop of `login`: every code unit of `text`, folded, as two
      little-endian bytes. */
  method EncodeHashInput(text: string) returns (buf: seq<byte>)
    ensures buf == HashInput(text)
    ensures |buf| == 2 * |Utf16(text)|
    ensures forall i :: 0 <= i < |Utf16(text)| ==>
      buf[2 * i] == (if Utf16(text)[i] <= 255 then Utf16(text)[i] else 0x2e) && buf[2 * i + 1] == 0
  {
    var units := Utf16(text);
    buf := [];
    for k := 0 to |units|
      invariant buf == HashBytes(units[..k])
    {
      assert units[..k + 1][..k] == units[..k];
      var ch := if units[k] > 255 then 0x2e else units[k];
      buf := buf + LeBytes(ch);
    }
    assert units[..|units|] == units;
    HashBytesShape(units);
  }

  /** A character above U+00FF and below U+10000 hashes exactly like '.'. */
  lemma FoldBmp(before: string, c: char, after: string)
    requires 0xFF < c as int < 0x1_0000
    ensures HashInput(before + [c] + after) == HashInput(before + ['.'] + after)
  {
    Utf16Append(before + [c], after);
    Utf16Append(before, [c]);
    Utf16Append(before + ['.'], after);
    Utf16Append(before, ['.']);
    HashBytesAppend(Utf16(before) + Utf16([c]), Utf16(after));
    HashBytesAppend(Utf16(before), Utf16([c]));
    HashBytesAppend(Utf16(before) + Utf16(['.']), Utf16(after));
    HashBytesAppend(Utf16(before), Utf16(['.']));
    assert Utf16([c]) == [c as int];
    assert Utf16(['.']) == [0x2e];
  }

  /** A character from U+10000 on becomes two surrogates and hashes like "..". */
  lemma FoldSupplementary(before: string, c: char, after: string)
    requires c as int >= 0x1_0000
    ensures HashInput(before + [c] + after) == HashInput(before + ['.', '.'] + after)
  {
    Utf16Append(before + [c], after);
    Utf16Append(before, [c]);
    Utf16Append(before + ['.', '.'], after);
    Utf16Append(before, ['.', '.']);
    HashBytesAppend(Utf16(before) + Utf16([c]), Utf16(after));
    HashBytesAppend(Utf16(before), Utf16([c]));
    HashBytesAppend(Utf16(before) + Utf16(['.', '.']), Utf16(after));
    HashBytesAppend(Utf16(before), Utf16(['.', '.']));
    var u := CodeUnits(c);
    assert Utf16([c]) == u;
    assert Utf16(['.', '.']) == [0x2e, 0x2e];
    assert u == u[..1] + [u[1]];
    assert HashBytes(u) == HashBytes([u[0]]) + LeBytes(FoldUnit(u[1]));
  }

  // Hex rendering

  const HexDigits: string := "0123456789abcdef"

  /** A byte as two lowercase hex digits (`format!("{:02x}", b)`). */
  function HexByte(b: byte): (s: string)
    ensures |s| == 2
  {
    [HexDigits[b / 16], HexDigits[b % 16]]
  }

  /** A digest as lowercase hex, two digits per byte, no separators. */
  function Hex(bytes: seq<byte>): (s: string)
    ensures |s| == 2 * |bytes|
    ensures forall i :: 0 <= i < |s| ==> s[i] in HexDigits
  {
    if |bytes| == 0 then "" else HexByte(bytes[0]) + Hex(bytes[1..])
  }

  /** The value of a lowercase hex digit. */
  function HexValue(c: char): Option<nat> {
    if '0' <= c <= '9' then Some(c as int - '0' as int)
    else if 'a' <= c <= 'f' then Some(c as int - 'a' as int + 10)
    else None
  }

  /** Reads lowercase hex back into bytes; odd lengths and other characters fail. */
  function UnHex(s: string): Option<seq<byte>> {
    if |s| == 0 then Some([])
    else if |s| == 1 then None
    else
      match (HexValue(s[0]), HexValue(s[1]), UnHex(s[2..]))
      case (Some(hi), Some(lo), Some(rest)) => Some([hi * 16 + lo] + rest)
      case _ => None
  }

  lemma HexByteRoundTrip(b: byte)
    ensures HexValue(HexByte(b)[0]) == Some(b / 16) && HexValue(HexByte(b)[1]) == Some(b % 16)
  {
  }

  /** Reading a hex byte in front of more hex. */
  lemma UnHexCons(b: byte, rest: string)
    ensures UnHex(HexByte(b) + rest) ==
      match UnHex(rest) case Some(tail) => Some([b] + tail) case None => None
  {
    var s := HexByte(b) + rest;
    HexByteRoundTrip(b);
    assert s[0] == HexByte(b)[0] && s[1] == HexByte(b)[1] && s[2..] == rest;
    assert (b / 16) * 16 + b % 16 == b;
  }

  lemma {:induction false} HexRoundTrip(bytes: seq<byte>)
    ensures UnHex(Hex(bytes)) == Some(bytes)
  {
    if |bytes| > 0 {
      HexRoundTrip(bytes[1..]);
      UnHexCons(bytes[0], Hex(bytes[1..]));
      assert [bytes[0]] + bytes[1..] == bytes;
    }
  }

  /** Different digests never render alike. */
  lemma HexInjective(a: seq<byte>, b: seq<byte>)
    requires Hex(a) == Hex(b)
    ensures a == b
  {
    HexRoundTrip(a);
    HexRoundTrip(b);
  }

  // The response token

  /** Whether `md5` yields 16-byte digests, as MD5 does. */
  ghost predicate IsDigest(md5: seq<byte> -> seq<byte>) {
    forall b :: |md5(b)| == 16
  }

  /** The token the router expects for `challenge` and `password`. */
  function ExpectedResponse(challenge: string, password: string, md5: seq<byte> -> seq<byte>): string {
    challenge + "-" + Hex(md5(HashInput(challenge + "-" + password)))
  }

  /** Splits a response token into the challenge and the digest it carries. */
  function SplitResponse(response: string): Option<(string, seq<byte>)> {
    if |response| < 33 || response[|response| - 33] != '-' then None
    else
      match UnHex(response[|response| - 32..])
      case Some(digest) => Some((response[..|response| - 33], digest))
      case None => None
  }

  /** A token is the challenge, '-', and 32 hex digits, from which the challenge and
      the digest of the folded `challenge-password` bytes are read back. */
  lemma ResponseShape(challenge: string, password: string, md5: seq<byte> -> seq<byte>)
    requires IsDigest(md5)
    ensures |ExpectedResponse(challenge, password, md5)| == |challenge| + 33
    ensures SplitResponse(ExpectedResponse(challenge, password, md5)) ==
      Some((challenge, md5(HashInput(challenge + "-" + password))))
  {
    var digest := md5(HashInput(challenge + "-" + password));
    var r := ExpectedResponse(challenge, password, md5);
    assert r[|r| - 32..] == Hex(digest);
    assert r[..|r| - 33] == challenge;
    HexRoundTrip(digest);
  }

  /** What `login` sends as `response`: `challenge-` followed by the hex digest of the
      folded UTF-16LE bytes of `challenge-password`. */
  method ComputeResponse(challenge: string, password: string, md5: seq<byte> -> seq<byte>) returns (response: string)
    ensures response == ExpectedResponse(challenge, password, md5)
    ensures response[..|challenge| + 1] == challenge + "-"
    ensures UnHex(response[|challenge| + 1..]) == Some(md5(HashInput(challenge + "-" + password)))
  {
    var buf := EncodeHashInput(challenge + "-" + password);
    var sum := Hex(md5(buf));
    response := challenge + "-" + sum;
    assert response[|challenge| + 1..] == sum;
    HexRoundTrip(md5(buf));
  }

  // Sessions

  /** `SID`, `Challenge` and `BlockTime` of a `login_sid.lua` reply. */
  datatype Session = Session(sid: string, challenge: string, blockTime: int)

  /** `Session::default()`: empty strings and a zero block time. */
  const DefaultSession: Session := Session("", "", 0)

  datatype Config = Config(baseUrl: string, username: string, password: string)

  /** A failed HTTP exchange. */
  datatype TransportError = TransportError

  /** The client: its configuration and the session it currently holds. */
  class FritzApi {
    const config: Config
    var session: Session

    constructor (config: Config)
      ensures this.config == config && session == DefaultSession
    {
      this.config := config;
      session := DefaultSession;
    }

    /** `login`. `probe` is the parsed reply to the challenge request, and
        `answer(username, response)` the parsed reply to the login post with that
        form. The reply is returned as it is; nothing checks its `sid`. */
    method Login(probe: Result<Session, TransportError>,
                 answer: (string, string) -> Result<Session, TransportError>,
                 md5: seq<byte> -> seq<byte>)
      returns (r: Result<Session, TransportError>)
      ensures probe.Failure? ==> r == Failure(probe.error)
      ensures probe.Success? ==>
        r == answer(config.username, ExpectedResponse(probe.value.challenge, config.password, md5))
    {
      if probe.Failure? {
        return Failure(probe.error);
      }
      var info := probe.value;
      var response := ComputeResponse(info.challenge, config.password, md5);
      r := answer(config.username, response);
    }

    /** `authenticated`: a client with the default session whose session is then
        replaced by whatever `login` returned. */
    static method Authenticated(config: Config,
                                probe: Result<Session, TransportError>,
                                answer: (string, string) -> Result<Session, TransportError>,
                                md5: seq<byte> -> seq<byte>)
      returns (r: Result<FritzApi, TransportError>)
      ensures probe.Failure? ==> r.Failure? && r.error == probe.error
      ensures probe.Success? ==>
        var reply := answer(config.username, ExpectedResponse(probe.value.challenge, config.password, md5));
        (r.Failure? <==> reply.Failure?) &&
        (r.Failure? ==> r.error == reply.error) &&
        (r.Success? ==> fresh(r.value) && r.value.config == config && r.value.session == reply.value)
    {
      var api := new FritzApi(config);
      var login := api.Login(probe, answer, md5);
      if login.Failure? {
        return Failure(login.error);
      }
      api.session := login.value;
      r := Success(api);
    }
  }
}
