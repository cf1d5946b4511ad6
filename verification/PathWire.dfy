/**
 The LAN datagram and the relay stream.

 `Datagram`/`Undatagram` are the values `EncodeLAN`/`DecodeLAN` compute; the methods fill and scan
 buffers as the code does. Identity hashes and JSON are parameters.
 */
module PathWire {
  import opened Common

  type byte = n: int | 0 <= n < 256

  datatype Frame = Frame(
    typ: string, network: string, from: string, to: string, epoch: string, seqno: uint64,
    nonce: string, candidates: seq<string>, payload: seq<byte>, mac: seq<byte>)

  const MAX_FRAME := 8192
  const LAN_HEADER := 122
  const MAX_PAYLOAD := 4096

  // ---------- hexadecimal ----------

  function HexDigit(n: nat): char
    requires n < 16
  {
    if n < 10 then '0' + (n as char) else 'a' + ((n - 10) as char)
  }

  /** Decoding accepts both cases. */
  function HexValue(c: char): Option<nat>
    ensures HexValue(c).Some? ==> HexValue(c).value < 16
  {
    if '0' <= c <= '9' then Some((c - '0') as nat)
    else if 'a' <= c <= 'f' then Some((c - 'a') as nat + 10)
    else if 'A' <= c <= 'F' then Some((c - 'A') as nat + 10)
    else None
  }

  function HexEncode(b: seq<byte>): (s: string)
    ensures |s| == 2 * |b|
  {
    if b == [] then [] else [HexDigit(b[0] / 16), HexDigit(b[0] % 16)] + HexEncode(b[1..])
  }

  function HexDecode(s: string): (r: Option<seq<byte>>)
    ensures r.Some? ==> |s| == 2 * |r.value|
  {
    if s == [] then Some([])
    else if |s| == 1 || HexValue(s[0]).None? || HexValue(s[1]).None? then None
    else
      var rest := HexDecode(s[2..]);
      if rest.None? then None
      else Some([16 * HexValue(s[0]).value + HexValue(s[1]).value] + rest.value)
  }

  predicate NoUpperCase(s: string)
  {
    forall i :: 0 <= i < |s| ==> !('A' <= s[i] <= 'F')
  }

  lemma HexCharacters(n: nat)
    requires n < 16
    ensures HexDigit(n) == "0123456789abcdef"[n]
  {
  }

  lemma {:induction false} HexEncodeDecode(b: seq<byte>)
    ensures HexDecode(HexEncode(b)) == Some(b) && NoUpperCase(HexEncode(b))
  {
    if b != [] {
      HexEncodeDecode(b[1..]);
      assert HexEncode(b)[2..] == HexEncode(b[1..]);
      assert [b[0]] + b[1..] == b;
    }
  }

  /** Encoding gives back exactly the lower-case texts. */
  lemma {:induction false} HexDecodeEncode(s: string)
    requires HexDecode(s).Some?
    ensures HexEncode(HexDecode(s).value) == s <==> NoUpperCase(s)
  {
    hide HexDigit, HexValue, NoUpperCase;
    if s == [] {
      EmptyCase();
    } else {
      HexDecodeEncode(s[2..]);
      var b := HexDecode(s).value;
      assert b[1..] == HexDecode(s[2..]).value;
      SplitCase(s);
      HexPair(s[0], s[1]);
      SamePrefix([HexDigit(b[0] / 16), HexDigit(b[0] % 16)], HexEncode(b[1..]), [s[0], s[1]], s[2..]);
      assert s == [s[0], s[1]] + s[2..];
    }
  }

  lemma EmptyCase()
    ensures NoUpperCase("")
  {
  }

  lemma SamePrefix(a: string, b: string, c: string, d: string)
    requires |a| == |c|
    ensures a + b == c + d <==> a == c && b == d
  {
    if a + b == c + d {
      assert a == (a + b)[..|a|] && c == (c + d)[..|a|];
      assert b == (a + b)[|a|..] && d == (c + d)[|a|..];
    }
  }

  lemma SplitCase(s: string)
    requires |s| >= 2
    ensures NoUpperCase(s) <==> NoUpperCase([s[0], s[1]]) && NoUpperCase(s[2..])
  {
    if NoUpperCase([s[0], s[1]]) && NoUpperCase(s[2..]) {
      forall i | 0 <= i < |s| ensures !('A' <= s[i] <= 'F') {
        if i < 2 { assert s[i] == [s[0], s[1]][i]; } else { assert s[i] == s[2..][i - 2]; }
      }
    }
    if NoUpperCase(s) {
      assert [s[0], s[1]][0] == s[0] && [s[0], s[1]][1] == s[1];
    }
  }

  lemma HexPair(x: char, y: char)
    requires HexValue(x).Some? && HexValue(y).Some?
    ensures var n := 16 * HexValue(x).value + HexValue(y).value;
            [HexDigit(n / 16), HexDigit(n % 16)] == [x, y] <==> NoUpperCase([x, y])
  {
    var n := 16 * HexValue(x).value + HexValue(y).value;
    assert n / 16 == HexValue(x).value && n % 16 == HexValue(y).value;
    assert [x, y][0] == x && [x, y][1] == y;
    assert HexDigit(n / 16) == x <==> !('A' <= x <= 'F');
    assert HexDigit(n % 16) == y <==> !('A' <= y <= 'F');
  }

  // ---------- big-endian numbers ----------

  function Pow256(k: nat): nat { if k == 0 then 1 else 256 * Pow256(k - 1) }

  function BigEndian(n: nat, k: nat): (b: seq<byte>)
    ensures |b| == k
  {
    if k == 0 then [] else BigEndian(n / 256, k - 1) + [n % 256]
  }

  function FromBigEndian(b: seq<byte>): nat
  {
    if b == [] then 0 else 256 * FromBigEndian(b[..|b| - 1]) + b[|b| - 1]
  }

  /** The last byte is the lowest. */
  lemma BigEndianLast(n: nat)
    ensures n < 0x1_0000_0000 ==> BigEndian(n, 4) == [n / 0x100_0000, n / 0x1_0000 % 256, n / 0x100 % 256, n % 256]
  {
    assert BigEndian(n, 4) == BigEndian(n / 256, 3) + [n % 256];
    assert BigEndian(n / 256, 3) == BigEndian(n / 256 / 256, 2) + [n / 256 % 256];
    assert BigEndian(n / 256 / 256, 2) == BigEndian(n / 256 / 256 / 256, 1) + [n / 256 / 256 % 256];
  }

  lemma {:induction false} BigEndianRoundTrip(n: nat, k: nat)
    requires n < Pow256(k)
    ensures FromBigEndian(BigEndian(n, k)) == n
  {
    if k != 0 {
      BigEndianRoundTrip(n / 256, k - 1);
      assert BigEndian(n, k)[..k - 1] == BigEndian(n / 256, k - 1);
    }
  }

  lemma {:induction false} FromBigEndianRoundTrip(b: seq<byte>)
    ensures FromBigEndian(b) < Pow256(|b|) && BigEndian(FromBigEndian(b), |b|) == b
  {
    if b != [] {
      FromBigEndianRoundTrip(b[..|b| - 1]);
      assert b == b[..|b| - 1] + [b[|b| - 1]];
    }
  }

  lemma SeqnoFits()
    ensures Pow256(8) == TWO_64 && Pow256(4) == 0x1_0000_0000
  {
    assert Pow256(4) == 256 * Pow256(3) == 256 * 256 * Pow256(2);
    assert Pow256(6) == 256 * Pow256(5) == 256 * 256 * Pow256(4);
    assert Pow256(8) == 256 * Pow256(7) == 256 * 256 * Pow256(6);
  }

  // ---------- LAN datagrams ----------

  /** The first 16 bytes of SHA-256 of a name. */
  type Identity = string -> seq<byte>

  ghost predicate IdentityOk(id: Identity)
  {
    forall s :: |id(s)| == 16
  }

  function Kind(typ: string): Option<byte>
  {
    if typ == "data" then Some(1) else if typ == "probe" then Some(2) else if typ == "ack" then Some(3) else None
  }

  const ZEROS: seq<byte> := [0, 0, 0, 0, 0, 0, 0, 0, 0, 0, 0, 0, 0, 0, 0, 0]

  /** 16 bytes written as 32 hexadecimal characters. */
  predicate Hex16(s: string)
  {
    HexDecode(s).Some? && |HexDecode(s).value| == 16
  }

  predicate Encodable(f: Frame)
  {
    && Kind(f.typ).Some?
    && Hex16(f.epoch) && |f.mac| == 32 && |f.payload| <= MAX_PAYLOAD
    && (f.typ != "data" ==> Hex16(f.nonce))
  }

  /** Data frames carry no nonce on the wire. */
  function NonceBytes(f: Frame): seq<byte>
    requires Encodable(f)
  {
    if f.typ == "data" then ZEROS else HexDecode(f.nonce).value
  }

  function Datagram(id: Identity, f: Frame): seq<byte>
    requires Encodable(f)
  {
    [1, Kind(f.typ).value] + id(f.network) + id(f.from) + id(f.to) + HexDecode(f.epoch).value
    + BigEndian(f.seqno, 8) + NonceBytes(f) + f.mac + f.payload
  }

  function FirstMatch(id: Identity, h: seq<byte>, peers: seq<string>): (r: Option<string>)
    ensures r.Some? ==> r.value in peers && id(r.value) == h
    ensures r.None? ==> forall p :: p in peers ==> id(p) != h
  {
    if peers == [] then None
    else if id(peers[0]) == h then Some(peers[0])
    else FirstMatch(id, h, peers[1..])
  }

  predicate Decodable(id: Identity, b: seq<byte>, network: string, self: string, peers: seq<string>)
  {
    && LAN_HEADER <= |b| <= LAN_HEADER + MAX_PAYLOAD
    && b[0] == 1
    && b[2..18] == id(network) && b[34..50] == id(self)
    && FirstMatch(id, b[18..34], peers).Some? && FirstMatch(id, b[18..34], peers).value != ""
    && 1 <= b[1] <= 3
    && (b[1] != 1 ==> |b| == LAN_HEADER)
  }

  lemma SeqnoInRange(b: seq<byte>)
    requires |b| == 8
    ensures FromBigEndian(b) < TWO_64
  {
    FromBigEndianRoundTrip(b);
    SeqnoFits();
  }

  function Undatagram(id: Identity, b: seq<byte>, network: string, self: string, peers: seq<string>): Frame
    requires Decodable(id, b, network, self, peers)
  {
    SeqnoInRange(b[66..74]);
    Frame(
      if b[1] == 1 then "data" else if b[1] == 2 then "probe" else "ack",
      network, FirstMatch(id, b[18..34], peers).value, self,
      HexEncode(b[50..66]), FromBigEndian(b[66..74]),
      if b[1] == 1 then "" else HexEncode(b[74..90]),
      [], if b[1] == 1 then b[122..] else [], b[90..122])
  }

  method CopyInto(b: array<byte>, at: nat, src: seq<byte>)
    requires at + |src| <= b.Length
    modifies b
    ensures b[..] == old(b[..at]) + src + old(b[at + |src|..])
    ensures forall k :: 0 <= k < b.Length && !(at <= k < at + |src|) ==> b[k] == old(b[k])
  {
    var i := 0;
    while i < |src|
      invariant 0 <= i <= |src|
      invariant forall k :: 0 <= k < b.Length ==> b[k] == if at <= k < at + i then src[k - at] else old(b[k])
    {
      b[at + i] := src[i];
      i := i + 1;
    }
  }

  method EncodeLAN(id: Identity, f: Frame) returns (b: array?<byte>)
    requires IdentityOk(id)
    ensures b != null <==> Encodable(f)
    ensures b != null ==> fresh(b) && b[..] == Datagram(id, f)
  {
    var kind: byte := 0;
    if f.typ == "data" {
      kind := 1;
    } else if f.typ == "probe" {
      kind := 2;
    } else if f.typ == "ack" {
      kind := 3;
    } else {
      return null;
    }
    var epoch := HexDecode(f.epoch);
    if epoch.None? || |epoch.value| != 16 || |f.mac| != 32 || |f.payload| > MAX_PAYLOAD {
      return null;
    }
    var nonce := Some(ZEROS);
    if kind != 1 {
      nonce := HexDecode(f.nonce);
      if nonce.None? || |nonce.value| != 16 {
        return null;
      }
    }
    b := new byte[LAN_HEADER + |f.payload|](_ => 0);
    FillHeader(id, f, b, kind, epoch.value);
    FillBody(f, b, nonce.value);
  }

  method FillBody(f: Frame, b: array<byte>, nonce: seq<byte>)
    requires b.Length == LAN_HEADER + |f.payload| && |nonce| == 16 && |f.mac| == 32
    modifies b
    ensures b[..] == old(b[..74]) + nonce + f.mac + f.payload
  {
    CopyInto(b, 74, nonce);
    CopyInto(b, 90, f.mac);
    CopyInto(b, 122, f.payload);
    assert b[..] == b[..74] + nonce + f.mac + f.payload;
  }

  method FillHeader(id: Identity, f: Frame, b: array<byte>, kind: byte, epoch: seq<byte>)
    requires IdentityOk(id) && b.Length >= LAN_HEADER && |epoch| == 16
    modifies b
    ensures b[..74] == [1, kind] + id(f.network) + id(f.from) + id(f.to) + epoch + BigEndian(f.seqno, 8)
    ensures b[74..] == old(b[74..])
  {
    b[0], b[1] := 1, kind;
    assert b[..2] == [1, kind];
    CopyInto(b, 2, id(f.network));
    CopyInto(b, 18, id(f.from));
    CopyInto(b, 34, id(f.to));
    assert b[..50] == [1, kind] + id(f.network) + id(f.from) + id(f.to);
    CopyInto(b, 50, epoch);
    CopyInto(b, 66, BigEndian(f.seqno, 8));
    assert forall k :: 74 <= k < b.Length ==> b[k] == old(b[k]);
  }

  method DecodeLAN(id: Identity, b: seq<byte>, network: string, self: string, peers: seq<string>)
    returns (r: Option<Frame>)
    requires IdentityOk(id)
    ensures r.Some? <==> Decodable(id, b, network, self, peers)
    ensures r.Some? ==> r.value == Undatagram(id, b, network, self, peers)
  {
    if |b| < LAN_HEADER || |b| > LAN_HEADER + MAX_PAYLOAD || b[0] != 1 {
      return None;
    }
    if b[2..18] != id(network) || b[34..50] != id(self) {
      return None;
    }
    var from, i := "", 0;
    ghost var h := b[18..34];
    while i < |peers|
      invariant 0 <= i <= |peers| && from == ""
      invariant FirstMatch(id, h, peers) == FirstMatch(id, h, peers[i..])
    {
      assert peers[i..][1..] == peers[i + 1..];
      if b[18..34] == id(peers[i]) {
        from := peers[i];
        break;
      }
      i := i + 1;
    }
    if from == "" {
      return None;
    }
    SeqnoInRange(b[66..74]);
    var typ, nonce, payload := "", "", [];
    match b[1] {
      case 1 => typ, payload := "data", b[122..];
      case 2 => typ, nonce := "probe", HexEncode(b[74..90]);
      case 3 => typ, nonce := "ack", HexEncode(b[74..90]);
      case _ => return None;
    }
    if b[1] != 1 && |b| != LAN_HEADER {
      return None;
    }
    r := Some(Frame(typ, network, from, self, HexEncode(b[50..66]), FromBigEndian(b[66..74]), nonce, [], payload,
      b[90..122]));
  }

  // ---------- the codec's round trips ----------

  /** What a frame must look like to survive the LAN codec unchanged. */
  predicate Canonical(id: Identity, f: Frame, peers: seq<string>)
  {
    && NoUpperCase(f.epoch) && f.candidates == []
    && (if f.typ == "data" then f.nonce == "" else NoUpperCase(f.nonce) && f.payload == [])
    && f.from != "" && FirstMatch(id, id(f.from), peers) == Some(f.from)
  }

  lemma DatagramFields(id: Identity, f: Frame)
    requires IdentityOk(id) && Encodable(f)
    ensures var b := Datagram(id, f);
            && |b| == LAN_HEADER + |f.payload| && b[0] == 1 && b[1] == Kind(f.typ).value
            && b[2..18] == id(f.network) && b[18..34] == id(f.from) && b[34..50] == id(f.to)
            && b[50..66] == HexDecode(f.epoch).value && b[66..74] == BigEndian(f.seqno, 8)
            && b[74..90] == NonceBytes(f) && b[90..122] == f.mac && b[122..] == f.payload
  {
  }

  /** Decoding an encoded frame returns it exactly when the frame is canonical; a peer that shares its
      identity hash with an earlier one, upper-case hexadecimal, a nonce on data, a payload on
      probes and candidate lists are what the wire format cannot carry. */
  lemma LanRoundTrip(id: Identity, f: Frame, peers: seq<string>)
    requires IdentityOk(id) && Encodable(f)
    ensures var b := Datagram(id, f);
            (Decodable(id, b, f.network, f.to, peers) && Undatagram(id, b, f.network, f.to, peers) == f) <==>
                Canonical(id, f, peers)
  {
    DatagramFields(id, f);
    HexDecodeEncode(f.epoch);
    if f.typ != "data" { HexDecodeEncode(f.nonce); }
    SeqnoFits();
    BigEndianRoundTrip(f.seqno, 8);
  }

  /** Known ids without hash collisions satisfy the identity part of `Canonical`. */
  lemma {:induction false} CollisionFree(id: Identity, from: string, peers: seq<string>)
    requires from in peers && forall p :: p in peers && id(p) == id(from) ==> p == from
    ensures FirstMatch(id, id(from), peers) == Some(from)
  {
  }

  lemma DatagramSplit(b: seq<byte>)
    requires |b| >= LAN_HEADER
    ensures b == b[0..2] + b[2..18] + b[18..34] + b[34..50] + b[50..66] + b[66..74] + b[74..90] + b[90..122] + b[122..]
  {
  }

  /** Sixteen bytes written as hexadecimal are a valid 128-bit name, which reads back as the same bytes. */
  lemma HexNameRead(b: seq<byte>)
    requires |b| == 16
    ensures Hex16(HexEncode(b)) && HexDecode(HexEncode(b)) == Some(b)
  {
    HexEncodeDecode(b);
  }

  /** The fields read from an accepted datagram can be written again, as the bytes they were read from. */
  lemma FieldsRead(id: Identity, b: seq<byte>, network: string, self: string, peers: seq<string>)
    requires IdentityOk(id) && Decodable(id, b, network, self, peers)
    ensures var f := Undatagram(id, b, network, self, peers);
            && Encodable(f) && id(f.network) == b[2..18] && id(f.from) == b[18..34] && id(f.to) == b[34..50]
            && HexDecode(f.epoch).value == b[50..66] && BigEndian(f.seqno, 8) == b[66..74]
            && NonceBytes(f) == (if b[1] == 1 then ZEROS else b[74..90])
            && f.mac == b[90..122] && f.payload == b[122..]
  {
    hide Hex16, HexDecode, HexEncode, FromBigEndian, BigEndian, FirstMatch;
    HexNameRead(b[50..66]);
    HexNameRead(b[74..90]);
    FromBigEndianRoundTrip(b[66..74]);
  }

  /** Re-encoding an accepted datagram gives the same bytes, except that a data frame loses
      whatever stood in its unused nonce field. */
  lemma LanReencode(id: Identity, b: seq<byte>, network: string, self: string, peers: seq<string>)
    requires IdentityOk(id) && Decodable(id, b, network, self, peers)
    ensures var f := Undatagram(id, b, network, self, peers);
            Encodable(f) && (Datagram(id, f) == b <==> (b[1] == 1 ==> b[74..90] == ZEROS))
  {
    hide Hex16, HexDecode, HexEncode, FromBigEndian, BigEndian, FirstMatch;
    var f := Undatagram(id, b, network, self, peers);
    FieldsRead(id, b, network, self, peers);
    DatagramSplit(b);
    DatagramFields(id, f);
    assert b[0] == 1 && b[0..2] == [1, b[1]];
  }

  // ---------- relay stream framing ----------

  /** JSON encoding of frames, as a pair of functions. */
  datatype Json = Json(enc: Frame -> seq<byte>, dec: seq<byte> -> Option<Frame>)

  datatype WriteResult = Done | Oversized | ShortWrite | WriterFailed

  /** A connection whose writer takes any part of what it is given. */
  class Conn {
    var wire: seq<byte>
    const sturdy: bool   // always takes at least one byte, and never fails

    /** Accepts some prefix, possibly nothing, possibly with an error. */
    method WriteSome(b: seq<byte>) returns (n: nat, failed: bool)
      modifies this
      ensures n <= |b| && wire == old(wire) + b[..n]
      ensures sturdy && b != [] ==> n > 0 && !failed
    {
      failed := *;
      failed := failed && !sturdy;
      n :| (if sturdy && b != [] then 1 else 0) <= n <= |b|;
      wire := wire + b[..n];
    }

    method WriteAll(data: seq<byte>) returns (r: WriteResult)
      modifies this
      ensures r in {Done, ShortWrite, WriterFailed}
      ensures r == Done ==> wire == old(wire) + data
      ensures sturdy ==> r == Done
      ensures old(wire) <= wire <= old(wire) + data
    {
      var b := data;
      ghost var k := 0;
      while |b| > 0
        invariant k <= |data| && b == data[k..] && wire == old(wire) + data[..k]
        decreases |b|
      {
        var n, failed := WriteSome(b);
        assert data[..k] + data[k..][..n] == data[..k + n];
        k := k + n;
        if failed {
          return WriterFailed;
        }
        if n == 0 {
          return ShortWrite;
        }
        b := b[n..];
      }
      r := Done;
    }

    method Write(json: Json, f: Frame) returns (r: WriteResult)
      modifies this
      ensures r == Done ==> |json.enc(f)| <= MAX_FRAME && wire == old(wire) + Framed(json, f)
      ensures sturdy && |json.enc(f)| <= MAX_FRAME ==> r == Done
      ensures |json.enc(f)| > MAX_FRAME ==> r == Oversized && wire == old(wire)
      ensures |json.enc(f)| <= MAX_FRAME ==> r != Oversized && old(wire) <= wire <= old(wire) + Framed(json, f)
    {
      var b := json.enc(f);
      if |b| > MAX_FRAME {
        return Oversized;
      }
      r := WriteAll(BigEndian(|b|, 4));
      if r != Done {
        return;
      }
      assert old(wire) + BigEndian(|b|, 4) + b == old(wire) + Framed(json, f);
      r := WriteAll(b);
    }

    /** io.ReadFull: the next n bytes, or nothing. */
    method ReadFull(n: nat) returns (b: Option<seq<byte>>)
      modifies this
      ensures if n <= |old(wire)| then b == Some(old(wire)[..n]) && wire == old(wire)[n..] else b == None
    {
      if n <= |wire| {
        b := Some(wire[..n]);
        wire := wire[n..];
      } else {
        b := None;
        wire := [];
      }
    }

    method Read(json: Json) returns (f: Option<Frame>)
      modifies this
      ensures f == ReadFrame(json, old(wire)).0
      ensures f.Some? ==> wire == ReadFrame(json, old(wire)).1
    {
      var n := ReadFull(4);
      if n.None? {
        return None;
      }
      var size := FromBigEndian(n.value);
      if size == 0 || size > MAX_FRAME {
        return None;
      }
      var b := ReadFull(size);
      if b.None? {
        return None;
      }
      f := json.dec(b.value);
    }
  }

  function Framed(json: Json, f: Frame): seq<byte>
  {
    BigEndian(|json.enc(f)|, 4) + json.enc(f)
  }

  /** What one `Read` returns, and what it leaves when it succeeds. */
  function ReadFrame(json: Json, wire: seq<byte>): (Option<Frame>, seq<byte>)
  {
    if |wire| < 4 then (None, [])
    else
      var size := FromBigEndian(wire[..4]);
      if size == 0 || size > MAX_FRAME || |wire| < 4 + size then (None, [])
      else (json.dec(wire[4..][..size]), wire[4..][size..])
  }

  function Stream(json: Json, frames: seq<Frame>): seq<byte>
  {
    if frames == [] then [] else Framed(json, frames[0]) + Stream(json, frames[1..])
  }

  /** The frames successive reads return until one fails. */
  function ReadAll(json: Json, wire: seq<byte>): seq<Frame>
    decreases |wire|
  {
    var (f, rest) := ReadFrame(json, wire);
    if f.None? || |rest| >= |wire| then [] else [f.value] + ReadAll(json, rest)
  }

  ghost predicate JsonOk(json: Json, f: Frame)
  {
    json.dec(json.enc(f)) == Some(f) && 0 < |json.enc(f)| <= MAX_FRAME
  }

  lemma ReadFramed(json: Json, f: Frame, rest: seq<byte>)
    requires JsonOk(json, f)
    ensures ReadFrame(json, Framed(json, f) + rest) == (Some(f), rest)
  {
    var wire, size := Framed(json, f) + rest, |json.enc(f)|;
    SeqnoFits();
    BigEndianRoundTrip(size, 4);
    assert wire[..4] == BigEndian(size, 4);
    assert wire[4..][..size] == json.enc(f) && wire[4..][size..] == rest;
  }

  /** Reading what was written returns exactly the frames written, in order. */
  lemma {:induction false} StreamRoundTrip(json: Json, frames: seq<Frame>)
    requires forall f :: f in frames ==> JsonOk(json, f)
    ensures ReadAll(json, Stream(json, frames)) == frames
  {
    if frames != [] {
      ReadFramed(json, frames[0], Stream(json, frames[1..]));
      StreamRoundTrip(json, frames[1..]);
      assert [frames[0]] + frames[1..] == frames;
    }
  }
}
