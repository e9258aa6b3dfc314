/** The five TFTP packets and their bit-exact layout (section 5 of RFC 1350): every field
    is a big-endian 16-bit word, strings are NUL-terminated. */
module Codec {
  import opened Wrappers
  import opened TftpDefs

  datatype Msg =
    | Rrq(fname: CString, mode: CString)
    | Wrq(fname: CString, mode: CString)
    | Data(blocknr: U16, payload: Block)
    | Ack(blocknr: U16)
    | Error(errcode: U16, errmsg: CString)

  datatype DecodeError =
    | Truncated            // fewer bytes than the header of the declared opcode
    | UnknownOpcode(opcode: U16)
    | MalformedStrings     // a string field is not NUL-terminated, or bytes follow the last one
    | BadLength            // an ACK longer than its header, a DATA payload over one block

  /** Header sizes of the packet structs: a 16-bit opcode, then a 16-bit field for
      DATA, ACK and ERROR. */
  const RrqHdrLen: nat := 2
  const WrqHdrLen: nat := 2
  const DataHdrLen: nat := 4
  const AckHdrLen: nat := 4
  const ErrHdrLen: nat := 4

  /** The connection's message buffer holds a DATA header and one block. */
  const MsgBufSize: nat := DataHdrLen + BlockSize

  function Opcode(m: Msg): (op: U16)
    ensures IsOpcode(op)
    ensures op == OpRrq <==> m.Rrq?
    ensures op == OpWrq <==> m.Wrq?
    ensures op == OpData <==> m.Data?
    ensures op == OpAck <==> m.Ack?
    ensures op == OpErr <==> m.Error?
  {
    match m
    case Rrq(_, _) => OpRrq
    case Wrq(_, _) => OpWrq
    case Data(_, _) => OpData
    case Ack(_) => OpAck
    case Error(_, _) => OpErr
  }

  /** A 16-bit field in network byte order. */
  function Word(n: U16): seq<Byte>
  {
    [n / 0x100, n % 0x100]
  }

  function ReadWord(hi: Byte, lo: Byte): U16
  {
    hi * 0x100 + lo
  }

  lemma WordRoundTrip(n: U16)
    ensures |Word(n)| == 2 && ReadWord(Word(n)[0], Word(n)[1]) == n
  {
  }

  lemma ReadWordCanonical(hi: Byte, lo: Byte)
    ensures Word(ReadWord(hi, lo)) == [hi, lo]
  {
    var n := hi * 0x100 + lo;
    assert n / 0x100 == hi && n % 0x100 == lo by {
      assert n == hi * 0x100 + lo && 0 <= lo < 0x100;
    }
  }

  function Encode(m: Msg): (r: seq<Byte>)
    ensures |r| >= 4 && r[..2] == Word(Opcode(m))
    ensures m.Rrq? ==> |r| == RrqHdrLen + |m.fname| + |m.mode| + 2
    ensures m.Wrq? ==> |r| == WrqHdrLen + |m.fname| + |m.mode| + 2
    ensures m.Data? ==> |r| == DataHdrLen + |m.payload| <= MsgBufSize
    ensures m.Ack? ==> |r| == AckHdrLen
    ensures m.Error? ==> |r| == ErrHdrLen + |m.errmsg| + 1
  {
    match m
    case Rrq(f, md) => Word(OpRrq) + f + [0] + md + [0]
    case Wrq(f, md) => Word(OpWrq) + f + [0] + md + [0]
    case Data(b, p) => Word(OpData) + Word(b) + p
    case Ack(b) => Word(OpAck) + Word(b)
    case Error(c, t) => Word(OpErr) + Word(c) + t + [0]
  }

  /** Index of the first NUL, i.e. `strlen` of the bytes as a C string when it is
      terminated inside them. */
  function FindNul(s: seq<Byte>): (r: Option<nat>)
    ensures r.Some? ==> r.value < |s| && s[r.value] == 0 && NoNul(s[..r.value])
    ensures r.None? ==> NoNul(s)
  {
    if |s| == 0 then None
    else if s[0] == 0 then Some(0)
    else match FindNul(s[1..])
      case None => None
      case Some(k) =>
        assert s[..k + 1] == [s[0]] + s[1..][..k];
        Some(k + 1)
  }

  lemma {:induction false} FindNulAfter(c: CString, tail: seq<Byte>)
    ensures FindNul(c + [0] + tail) == Some(|c|)
  {
    if |c| > 0 {
      assert c[0] != 0;
      assert (c + [0] + tail)[1..] == c[1..] + [0] + tail;
      FindNulAfter(c[1..], tail);
    }
  }

  /** Splits off a NUL-terminated string: the string and what follows its NUL. */
  function SplitString(s: seq<Byte>): (r: Option<(CString, seq<Byte>)>)
    ensures r.Some? ==> s == r.value.0 + [0] + r.value.1
    ensures r.None? ==> NoNul(s)
  {
    match FindNul(s)
    case None => None
    case Some(k) =>
      assert s == s[..k] + [0] + s[k + 1..];
      Some((s[..k], s[k + 1..]))
  }

  lemma SplitStringAfter(c: CString, tail: seq<Byte>)
    ensures SplitString(c + [0] + tail) == Some((c, tail))
  {
    FindNulAfter(c, tail);
    var s := c + [0] + tail;
    assert s[..|c|] == c && s[|c| + 1..] == tail;
  }

  /** Both strings of a request, with nothing after the second NUL. */
  function DecodeRequest(rest: seq<Byte>): Option<(CString, CString)>
  {
    match SplitString(rest)
    case None => None
    case Some((f, rest')) =>
      match SplitString(rest')
      case None => None
      case Some((md, tail)) => if tail == [] then Some((f, md)) else None
  }

  /** The packet with opcode `op`, from the bytes that follow the opcode. */
  function DecodeBody(op: U16, rest: seq<Byte>): Result<Msg, DecodeError>
  {
    if op == OpRrq then
      match DecodeRequest(rest)
      case None => Err(MalformedStrings)
      case Some((f, md)) => Ok(Rrq(f, md))
    else if op == OpWrq then
      match DecodeRequest(rest)
      case None => Err(MalformedStrings)
      case Some((f, md)) => Ok(Wrq(f, md))
    else if op == OpData then
      if |rest| < DataHdrLen - 2 then Err(Truncated)
      else if |rest| - 2 > BlockSize then Err(BadLength)
      else Ok(Data(ReadWord(rest[0], rest[1]), rest[2..]))
    else if op == OpAck then
      if |rest| < AckHdrLen - 2 then Err(Truncated)
      else if |rest| > AckHdrLen - 2 then Err(BadLength)
      else Ok(Ack(ReadWord(rest[0], rest[1])))
    else if op == OpErr then
      if |rest| < ErrHdrLen - 2 then Err(Truncated)
      else
        match SplitString(rest[2..])
        case None => Err(MalformedStrings)
        case Some((t, tail)) =>
          if tail == [] then Ok(Error(ReadWord(rest[0], rest[1]), t)) else Err(MalformedStrings)
    else Err(UnknownOpcode(op))
  }

  function Decode(b: seq<Byte>): (r: Result<Msg, DecodeError>)
    ensures |b| < 2 ==> r == Err(Truncated)
    ensures |b| >= 2 && !IsOpcode(ReadWord(b[0], b[1])) <==> r.Err? && r.error.UnknownOpcode?
    ensures |b| >= 2 && |b| < 4 && ReadWord(b[0], b[1]) in {OpData, OpAck, OpErr} ==>
              r == Err(Truncated)
    ensures r.Ok? ==> Opcode(r.value) == ReadWord(b[0], b[1])
  {
    if |b| < 2 then Err(Truncated) else DecodeBody(ReadWord(b[0], b[1]), b[2..])
  }

  /** Every packet decodes to itself. */
  lemma RoundTrip(m: Msg)
    ensures Decode(Encode(m)) == Ok(m)
  {
    match m
    case Rrq(f, md) => RoundTripRequest(OpRrq, f, md);
    case Wrq(f, md) => RoundTripRequest(OpWrq, f, md);
    case Data(n, p) => RoundTripData(n, p);
    case Ack(n) => RoundTripAck(n);
    case Error(c, t) => RoundTripError(c, t);
  }

  /** The two strings of a request come back out of its encoding. */
  lemma RoundTripRequest(op: U16, f: CString, md: CString)
    requires op == OpRrq || op == OpWrq
    ensures var m := if op == OpRrq then Rrq(f, md) else Wrq(f, md);
            Decode(Encode(m)) == Ok(m)
  {
    var m := if op == OpRrq then Rrq(f, md) else Wrq(f, md);
    var e := Encode(m);
    WordRoundTrip(op);
    assert e[2..] == f + [0] + (md + [0] + []);
    SplitStringAfter(f, md + [0] + []);
    SplitStringAfter(md, []);
    assert DecodeRequest(e[2..]) == Some((f, md));
  }

  lemma RoundTripData(n: U16, p: Block)
    ensures Decode(Encode(Data(n, p))) == Ok(Data(n, p))
  {
    var e := Encode(Data(n, p));
    WordRoundTrip(OpData);
    WordRoundTrip(n);
    assert e[2..][0] == e[2] && e[2..][1] == e[3];
    assert e[2..][2..] == p;
  }

  lemma RoundTripAck(n: U16)
    ensures Decode(Encode(Ack(n))) == Ok(Ack(n))
  {
    WordRoundTrip(OpAck);
    WordRoundTrip(n);
  }

  lemma RoundTripError(c: U16, t: CString)
    ensures Decode(Encode(Error(c, t))) == Ok(Error(c, t))
  {
    var e := Encode(Error(c, t));
    WordRoundTrip(OpErr);
    WordRoundTrip(c);
    assert e[2..][0] == e[2] && e[2..][1] == e[3];
    assert e[2..][2..] == t + [0] + [];
    SplitStringAfter(t, []);
  }

  lemma DecodeRequestCanonical(rest: seq<Byte>)
    requires DecodeRequest(rest).Some?
    ensures rest == DecodeRequest(rest).value.0 + [0] + DecodeRequest(rest).value.1 + [0]
  {
    var Some((f, rest')) := SplitString(rest);
    var Some((md, tail)) := SplitString(rest');
    assert rest' == md + [0];
  }

  lemma CanonicalRequest(op: U16, rest: seq<Byte>)
    requires op == OpRrq || op == OpWrq
    requires DecodeBody(op, rest).Ok?
    ensures Encode(DecodeBody(op, rest).value) == Word(op) + rest
  {
    DecodeRequestCanonical(rest);
    var (f, md) := DecodeRequest(rest).value;
    assert Word(op) + rest == Word(op) + f + [0] + md + [0];
  }

  lemma CanonicalHeader(op: U16, rest: seq<Byte>)
    requires op == OpData || op == OpAck
    requires DecodeBody(op, rest).Ok?
    ensures Encode(DecodeBody(op, rest).value) == Word(op) + rest
  {
    ReadWordCanonical(rest[0], rest[1]);
    assert rest == rest[..2] + rest[2..];
  }

  lemma CanonicalError(rest: seq<Byte>)
    requires DecodeBody(OpErr, rest).Ok?
    ensures Encode(DecodeBody(OpErr, rest).value) == Word(OpErr) + rest
  {
    var code := ReadWord(rest[0], rest[1]);
    ReadWordCanonical(rest[0], rest[1]);
    var Some((t, tail)) := SplitString(rest[2..]);
    assert tail == [] && DecodeBody(OpErr, rest).value == Error(code, t);
    assert rest[2..] == t + [0];
    assert Word(code) == rest[..2];
    calc {
      Encode(Error(code, t));
      Word(OpErr) + Word(code) + t + [0];
      { AppendAssoc(Word(OpErr) + Word(code), t, [0]); }
      Word(OpErr) + rest[..2] + rest[2..];
      { AppendAssoc(Word(OpErr), rest[..2], rest[2..]); assert rest[..2] + rest[2..] == rest; }
      Word(OpErr) + rest;
    }
  }

  lemma AppendAssoc<T>(a: seq<T>, b: seq<T>, c: seq<T>)
    ensures a + (b + c) == (a + b) + c
  {
  }

  lemma CanonicalBody(op: U16, rest: seq<Byte>)
    requires DecodeBody(op, rest).Ok?
    ensures Encode(DecodeBody(op, rest).value) == Word(op) + rest
  {
    if op == OpRrq || op == OpWrq {
      CanonicalRequest(op, rest);
    } else if op == OpData || op == OpAck {
      CanonicalHeader(op, rest);
    } else {
      CanonicalError(rest);
    }
  }

  /** Decoding accepts only the exact encoding of the packet it returns. */
  lemma DecodeCanonical(b: seq<Byte>)
    requires Decode(b).Ok?
    ensures Encode(Decode(b).value) == b
  {
    CanonicalBody(ReadWord(b[0], b[1]), b[2..]);
    ReadWordCanonical(b[0], b[1]);
    assert b == b[..2] + b[2..];
  }

  /** Together: a buffer decodes to m exactly when it is m's encoding. */
  lemma DecodeIffEncode(b: seq<Byte>, m: Msg)
    ensures Decode(b) == Ok(m) <==> b == Encode(m)
  {
    if Decode(b) == Ok(m) {
      DecodeCanonical(b);
    }
    if b == Encode(m) {
      RoundTrip(m);
    }
  }

  /** DATA and ACK always fit the message buffer, an ERROR when its text is at most
      511 bytes, a request when its two strings take at most 512 bytes together. */
  lemma FitsMsgBuf(m: Msg)
    ensures m.Data? || m.Ack? ==> |Encode(m)| <= MsgBufSize
    ensures m.Error? ==> (|Encode(m)| <= MsgBufSize <==> |m.errmsg| <= MsgBufSize - ErrHdrLen - 1)
    ensures m.Rrq? || m.Wrq? ==> (|Encode(m)| <= MsgBufSize <==> |m.fname| + |m.mode| <= MsgBufSize - 4)
  {
  }

  /** The block-number field of DATA and ACK carries the low 16 bits of the block
      counter, high byte first, for every counter value and every payload. */
  lemma BlockFieldWraps(n: int, p: Block)
    ensures Encode(Data(WireBlock(n), p))[2..4] == [(n / 0x100) % 0x100, n % 0x100]
    ensures Encode(Ack(WireBlock(n)))[2..4] == [(n / 0x100) % 0x100, n % 0x100]
  {
    var w := WireBlock(n);
    var q := n / 0x1_0000;
    assert n == 0x1_0000 * q + w;
    assert w == 0x100 * (w / 0x100) + w % 0x100;
    assert n == 0x100 * (0x100 * q + w / 0x100) + w % 0x100;
    ByteSplitUnique(n, 0x100 * q + w / 0x100, w % 0x100);
    ByteSplitUnique(0x100 * q + w / 0x100, q, w / 0x100);
    assert Word(w) == [(n / 0x100) % 0x100, n % 0x100];
    assert Encode(Data(w, p))[2..4] == Word(w);
    assert Encode(Ack(w))[2..4] == Word(w);
  }

  /** Division by 256 is determined by a quotient and a remainder in range. */
  lemma ByteSplitUnique(n: int, q: int, r: int)
    requires 0 <= r < 0x100 && n == 0x100 * q + r
    ensures n / 0x100 == q && n % 0x100 == r
  {
  }
}
