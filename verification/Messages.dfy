/** The client messages of the TCP protocol (server/recceiver/protocol/messages.py). */
module Messages {
  import opened Wrappers
  import opened Bytes

  datatype Message =
    | ClientGreeting(version: nat, clientType: nat, serverKey: nat)
    | Pong(nonce: nat)
    | AddRecord(recordId: nat, alias: bool, recordType: Text, recordName: Text)
    | DelRecord(recordId: nat)
    | UploadDone
    | AddInfo(recordId: nat, key: Text, value: Text)

  function MsgId(m: Message): nat {
    match m
    case ClientGreeting(_, _, _) => 0x0001
    case Pong(_) => 0x0002
    case AddRecord(_, _, _, _) => 0x0003
    case DelRecord(_) => 0x0004
    case UploadDone => 0x0005
    case AddInfo(_, _, _) => 0x0006
  }

  predicate Known(id: nat) {
    1 <= id <= 6
  }

  /** The size of the fixed part of a body. */
  function FixedSize(id: nat): nat
    requires Known(id)
  {
    if id == 1 || id == 3 || id == 6 then 8 else 4
  }

  /** What struct.pack and the length checks accept. */
  predicate Fits(m: Message) {
    match m
    case ClientGreeting(v, t, k) => v < TWO8 && t < TWO8 && k < TWO32
    case Pong(n) => n < TWO32
    case AddRecord(id, alias, rt, rn) =>
      id < TWO32 && |rt| < TWO8 && 0 < |rn| < TWO16 && (alias <==> |rt| == 0)
    case DelRecord(id) => id < TWO32
    case UploadDone => true
    case AddInfo(id, k, v) => id < TWO32 && 0 < |k| < TWO8 && |v| < TWO16
  }

  function Encode(m: Message): Result<seq<byte>> {
    if !Fits(m) then Failure else
    Success(
      match m
      case ClientGreeting(v, t, k) => [v, t, 0, 0] + U32(k)
      case Pong(n) => U32(n)
      case AddRecord(id, alias, rt, rn) => U32(id) + [if alias then 1 else 0, |rt|] + U16(|rn|) + rt + rn
      case DelRecord(id) => U32(id)
      case UploadDone => U32(0)
      case AddInfo(id, k, v) => U32(id) + [|k|, 0] + U16(|v|) + k + v)
  }

  function DecodeAddRecord(body: seq<byte>): Result<Message> {
    if |body| < 8 then Failure else
    var id, kind, rtLen, rnLen := FromU32(body[..4]), body[4], body[5], FromU16(body[6..8]);
    var text := body[8..];
    if kind != 0 && kind != 1 then Failure
    else if rnLen == 0 then Failure
    else if kind == 0 && rtLen == 0 then Failure
    else if kind == 1 && rtLen != 0 then Failure
    else if |text| != rtLen + rnLen then Failure
    else Success(AddRecord(id, kind == 1, text[..rtLen], text[rtLen..]))
  }

  function DecodeAddInfo(body: seq<byte>): Result<Message> {
    if |body| < 8 then Failure else
    var id, keyLen, valueLen := FromU32(body[..4]), body[4], FromU16(body[6..8]);
    var text := body[8..];
    if keyLen == 0 then Failure
    else if |text| != keyLen + valueLen then Failure
    else Success(AddInfo(id, text[..keyLen], text[keyLen..]))
  }

  function Decode(id: nat, body: seq<byte>): Result<Message> {
    match id
    case 1 => if |body| != 8 then Failure else Success(ClientGreeting(body[0], body[1], FromU32(body[4..])))
    case 2 => if |body| != 4 then Failure else Success(Pong(FromU32(body)))
    case 3 => DecodeAddRecord(body)
    case 4 => if |body| != 4 then Failure else Success(DelRecord(FromU32(body)))
    case 5 => if |body| != 4 then Failure else Success(UploadDone)
    case 6 => DecodeAddInfo(body)
    case _ => Failure
  }

  /** Bytes a decoder does not look at, set to what an encoder writes there. */
  function Canonical(id: nat, body: seq<byte>): seq<byte> {
    if id == 1 && |body| == 8 then body[2 := 0][3 := 0]
    else if id == 5 && |body| == 4 then [0, 0, 0, 0]
    else if id == 6 && |body| >= 8 then body[5 := 0]
    else body
  }

  lemma GreetingRoundTrip(v: byte, t: byte, k: nat)
    requires k < TWO32
    ensures var b := [v, t, 0, 0] + U32(k);
            |b| == 8 && b[0] == v && b[1] == t && FromU32(b[4..]) == k
  {
    U32RoundTrip(k);
    assert ([v, t, 0, 0] + U32(k))[4..] == U32(k);
  }

  /** The layout shared by add-record and add-info bodies: id, two bytes, a length, two texts. */
  function Layout(id: nat, x: byte, y: byte, n: nat, a: Text, b: Text): seq<byte>
    requires id < TWO32 && n < TWO16
  {
    U32(id) + [x, y] + U16(n) + a + b
  }

  lemma LayoutFields(id: nat, x: byte, y: byte, n: nat, a: Text, b: Text)
    requires id < TWO32 && n < TWO16
    ensures var l := Layout(id, x, y, n, a, b);
            && |l| == 8 + |a| + |b| && FromU32(l[..4]) == id && l[4] == x && l[5] == y
            && FromU16(l[6..8]) == n && l[8..] == a + b
            && l[8..][..|a|] == a && l[8..][|a|..] == b
  {
    var l := Layout(id, x, y, n, a, b);
    U32RoundTrip(id);
    U16RoundTrip(n);
    assert l[..4] == U32(id) && l[6..8] == U16(n) && l[8..] == a + b;
  }

  /** A body is determined by its fields and its text. */
  lemma LayoutOf(body: seq<byte>, n: nat)
    requires |body| >= 8 && n <= |body| - 8
    ensures Layout(FromU32(body[..4]), body[4], body[5], FromU16(body[6..8]), body[8..][..n], body[8..][n..]) == body
  {
    FromU32RoundTrip(body[..4]);
    FromU16RoundTrip(body[6..8]);
    assert body[8..][..n] + body[8..][n..] == body[8..];
    assert body[..4] + [body[4], body[5]] + body[6..8] + body[8..] == body;
    assert body[..4] + [body[4], body[5]] + body[6..8] + body[8..][..n] + body[8..][n..]
        == body[..4] + [body[4], body[5]] + body[6..8] + (body[8..][..n] + body[8..][n..]);
  }

  /** What a body has besides its fixed part. */
  function Texts(m: Message): Text {
    match m
    case AddRecord(_, _, rt, rn) => rt + rn
    case AddInfo(_, k, v) => k + v
    case _ => []
  }

  /** Every message within the field widths survives encoding and decoding; its body is the fixed part and its texts. */
  lemma DecodeInvertsEncode(m: Message)
    requires Fits(m)
    ensures Encode(m).Success? && Decode(MsgId(m), Encode(m).value) == Success(m)
    ensures |Encode(m).value| == FixedSize(MsgId(m)) + |Texts(m)| && |Encode(m).value| < TWO32
  {
    match m
    case ClientGreeting(v, t, k) => GreetingRoundTrip(v, t, k);
    case Pong(n) => U32RoundTrip(n);
    case AddRecord(id, alias, rt, rn) => LayoutFields(id, if alias then 1 else 0, |rt|, |rn|, rt, rn);
    case DelRecord(id) => U32RoundTrip(id);
    case UploadDone =>
    case AddInfo(id, k, v) => LayoutFields(id, |k|, 0, |v|, k, v);
  }

  /**
   Conversely a body that decodes is the encoding of what it decodes to, up to the padding bytes:
   no two readings of one body, and nothing of a body is dropped silently.
   */
  lemma EncodeInvertsDecode(id: nat, body: seq<byte>)
    requires Decode(id, body).Success?
    ensures MsgId(Decode(id, body).value) == id
    ensures Encode(Decode(id, body).value) == Success(Canonical(id, body))
  {
    match id
    case 1 =>
      FromU32RoundTrip(body[4..]);
      assert [body[0], body[1], 0, 0] + body[4..] == Canonical(1, body);
    case 2 => FromU32RoundTrip(body);
    case 3 => LayoutOf(body, body[5]);
    case 4 => FromU32RoundTrip(body);
    case 5 => assert U32(0) == [0, 0, 0, 0];
    case 6 => InfoReencodes(body);
  }

  lemma InfoReencodes(body: seq<byte>)
    requires DecodeAddInfo(body).Success?
    ensures Encode(DecodeAddInfo(body).value) == Success(body[5 := 0])
  {
    var c := body[5 := 0];
    assert c[..4] == body[..4] && c[6..8] == body[6..8] && c[8..] == body[8..] && c[4] == body[4];
    LayoutOf(c, body[4]);
  }

  /**
   The protocol asks endpoints to accept bodies longer than they need. No decoder does: whatever follows a
   good body, the whole is rejected.
   */
  lemma ExtraBytesAreRejected(id: nat, body: seq<byte>, extra: seq<byte>)
    requires Decode(id, body).Success? && extra != []
    ensures Decode(id, body + extra) == Failure
  {
    var b := body + extra;
    if id == 3 || id == 6 {
      assert b[..4] == body[..4] && b[6..8] == body[6..8] && b[4] == body[4] && b[5] == body[5];
    }
  }
}
