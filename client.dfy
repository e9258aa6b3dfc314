/** The connection handle and the client side of one transfer: `tftp_connect`, the
    send operations and the transfer loop, over the message buffer of the handle.
    Sockets are abstracted: every datagram handed to the socket is appended to `sent`,
    and what the socket delivers arrives as an Event. */
module Client {
  import opened Wrappers
  import opened TftpDefs
  import opened Codec
  import opened Engine
  import EngineProps

  const TypeGet: int := 0
  const TypePut: int := 1

  function KindOf(typ: int): (k: Option<Kind>)
    ensures k == Some(Get) <==> typ == TypeGet
    ensures k == Some(Put) <==> typ == TypePut
    ensures k.None? <==> typ != TypeGet && typ != TypePut
  {
    if typ == TypePut then Some(Put) else if typ == TypeGet then Some(Get) else None
  }

  /** How the local file is opened: "rb" to put it, "wb" to get it. */
  datatype Access = ReadBinary | WriteBinary

  function AccessFor(k: Kind): Access
  {
    if k == Put then ReadBinary else WriteBinary
  }

  class Conn {
    var kind: Kind
    var access: Access
    var fname: CString
    var mode: CString
    var blocknr: int
    /** Buffer for messages being sent; its first `msglen` bytes are the last one. */
    const msgbuf: array<Byte>
    var msglen: nat
    var retries: nat
    var phase: Phase
    /** The local file; `pos` is the read position when putting. */
    var file: seq<Byte>
    var pos: nat
    var totlen: nat
    /** Every datagram handed to the socket, in order. */
    var sent: seq<seq<Byte>>

    ghost predicate Valid()
      reads this
    {
      msgbuf.Length == MsgBufSize && msglen <= msgbuf.Length &&
      access == AccessFor(kind) && pos <= |file|
    }

    ghost function Abs(): Session
      reads this, msgbuf
      requires Valid()
    {
      Session(kind, fname, mode, blocknr, msgbuf[..msglen], retries, phase, file, pos, totlen)
    }

    constructor (kind: Kind, fname: CString, mode: CString, file: seq<Byte>)
      ensures Valid() && fresh(msgbuf)
      ensures Abs() == Init(kind, fname, mode, file) && sent == []
    {
      this.kind := kind;
      this.access := AccessFor(kind);
      this.fname := fname;
      this.mode := mode;
      this.blocknr := 0;
      this.msgbuf := new Byte[MsgBufSize];
      this.msglen := 0;
      this.retries := 0;
      this.phase := Idle;
      this.file := file;
      this.pos := 0;
      this.totlen := 0;
      this.sent := [];
    }

    /** Put a formatted message into the buffer and send it. */
    method Transmit(m: seq<Byte>) returns (n: int)
      requires Valid() && |m| <= MsgBufSize
      modifies this, msgbuf
      ensures Valid()
      ensures Abs() == old(Abs()).(last := m) && sent == old(sent) + [m] && n == |m|
    {
      forall i | 0 <= i < |m| {
        msgbuf[i] := m[i];
      }
      msglen := |m|;
      sent := sent + [m];
      n := |m|;
    }

    /** Send the buffered last message again without building a new one. */
    method Resend() returns (n: int)
      requires Valid()
      modifies this`sent
      ensures Valid()
      ensures Abs() == old(Abs()) && sent == old(sent) + [old(Abs()).last] && n == |old(Abs()).last|
    {
      sent := sent + [msgbuf[..msglen]];
      n := msglen;
    }

    /** Send the read request (getting) or the write request (putting) and start waiting
        for the reply; a request that does not fit the buffer is not sent (n < 0). */
    method SendRequest() returns (n: int)
      requires Valid() && phase == Idle
      modifies this, msgbuf
      ensures Valid()
      ensures Abs() == Start(old(Abs())).next && sent == old(sent) + Sends(Start(old(Abs())))
      ensures n < 0 <==> Start(old(Abs())).sent.None?
      ensures n >= 0 ==> n == |Abs().last| && n == RrqHdrLen + |fname| + |mode| + 2
    {
      var req := Encode(if kind == Get then Rrq(fname, mode) else Wrq(fname, mode));
      if |req| > MsgBufSize {
        phase := Failed(RequestTooLong);
        n := -1;
      } else {
        phase := if kind == Get then AwaitingData else AwaitingAck;
        retries := 0;
        n := Transmit(req);
      }
    }

    /** Acknowledge the current block. */
    method SendAck() returns (n: int)
      requires Valid()
      modifies this, msgbuf
      ensures Valid()
      ensures var m := Encode(Ack(WireBlock(blocknr)));
              Abs() == old(Abs()).(last := m) && sent == old(sent) + [m] && n == AckHdrLen
    {
      n := Transmit(Encode(Ack(WireBlock(blocknr))));
    }

    /** Send the current block with the next `length` bytes of the file; a negative
        length skips building a message and sends the buffered one again. */
    method SendData(length: int) returns (n: int)
      requires Valid()
      requires length >= 0 ==> length <= BlockSize && pos + length <= |file|
      modifies this, msgbuf
      ensures Valid()
      ensures length < 0 ==>
                Abs() == old(Abs()) && sent == old(sent) + [old(Abs()).last] && n == |old(Abs()).last|
      ensures length >= 0 ==>
                var m := Encode(Data(WireBlock(old(blocknr)), old(file[pos..pos + length])));
                Abs() == old(Abs()).(last := m) && sent == old(sent) + [m] && n == DataHdrLen + length
    {
      if length < 0 {
        n := Resend();
      } else {
        n := Transmit(Encode(Data(WireBlock(blocknr), file[pos..pos + length])));
      }
    }

    /** Nothing arrived in time: send the last block (putting) or the last ACK (getting)
        again while retries remain, otherwise give up. */
    method HandleTimeout(maxRetries: nat)
      requires Valid() && Awaiting(phase)
      modifies this, msgbuf
      ensures Valid()
      ensures Abs() == OnTimeout(old(Abs()), maxRetries).next
      ensures sent == old(sent) + Sends(OnTimeout(old(Abs()), maxRetries))
    {
      if retries < maxRetries {
        retries := retries + 1;
        var n;
        if kind == Put {
          n := SendData(-1);
        } else {
          n := Resend();
        }
      } else {
        phase := Failed(Timeout);
      }
    }

    /** Received a data block: write it and send the ACK. */
    method HandleData(blk: U16, payload: Block)
      requires Valid() && Awaiting(phase)
      modifies this, msgbuf
      ensures Valid()
      ensures Abs() == OnData(old(Abs()), blk, payload).next
      ensures sent == old(sent) + Sends(OnData(old(Abs()), blk, payload))
    {
      if phase != AwaitingData {
        phase := Failed(UnexpectedKind);
      } else if blk != WireBlock(blocknr + 1) {
        var n := Resend();
      } else {
        ghost var s := Abs();
        ghost var t := s.(file := s.file + payload, totlen := s.totlen + |payload|,
                          blocknr := s.blocknr + 1, retries := 0,
                          phase := if |payload| < BlockSize then Done else AwaitingData);
        assert OnData(s, blk, payload) == Emit(t, Encode(Ack(WireBlock(t.blocknr))));
        AcceptBlock(payload);
      }
    }

    /** The expected block arrived: write it to the file, count it, and acknowledge it;
        a block shorter than BlockSize is the last one. */
    method AcceptBlock(payload: Block)
      requires Valid()
      modifies this, msgbuf
      ensures Valid()
      ensures var s := old(Abs());
              var m := Encode(Ack(WireBlock(s.blocknr + 1)));
              Abs() == s.(file := s.file + payload, totlen := s.totlen + |payload|,
                          blocknr := s.blocknr + 1, retries := 0, last := m,
                          phase := if |payload| < BlockSize then Done else s.phase) &&
              sent == old(sent) + [m]
    {
      ghost var s := Abs();
      file := file + payload;
      totlen := totlen + |payload|;
      blocknr := blocknr + 1;
      retries := 0;
      if |payload| < BlockSize {
        phase := Done;
      }
      assert Abs() == s.(file := s.file + payload, totlen := s.totlen + |payload|,
                         blocknr := s.blocknr + 1, retries := 0,
                         phase := if |payload| < BlockSize then Done else s.phase);
      var n := SendAck();
    }

    /** Received an ACK: send the next block, or finish after the final one. */
    method HandleAck(blk: U16)
      requires Valid() && Awaiting(phase)
      modifies this, msgbuf
      ensures Valid()
      ensures Abs() == OnAck(old(Abs()), blk).next
      ensures sent == old(sent) + Sends(OnAck(old(Abs()), blk))
    {
      if phase != AwaitingAck {
        phase := Failed(UnexpectedKind);
      } else if blk != WireBlock(blocknr) {
        var n := SendData(-1);
      } else if blocknr > 0 && msglen - DataHdrLen < BlockSize {
        phase := Done;
        retries := 0;
      } else {
        ghost var s := Abs();
        ghost var c := NextChunk(s);
        ghost var s' := s.(blocknr := s.blocknr + 1, pos := s.pos + |c|, totlen := s.totlen + |c|, retries := 0);
        assert OnAck(s, blk) == Emit(s', Encode(Data(WireBlock(s'.blocknr), c)));
        SendNextBlock();
      }
    }

    /** The previous block was acknowledged and was not the last: read the next chunk
        of the file and send it as DATA for the next block number. */
    method SendNextBlock()
      requires Valid()
      modifies this, msgbuf
      ensures Valid()
      ensures var s := old(Abs());
              var c := NextChunk(s);
              var m := Encode(Data(WireBlock(s.blocknr + 1), c));
              Abs() == s.(blocknr := s.blocknr + 1, pos := s.pos + |c|, totlen := s.totlen + |c|,
                          retries := 0, last := m) &&
              sent == old(sent) + [m]
    {
      ghost var s := Abs();
      ghost var c := NextChunk(s);
      var length := if |file| - pos <= BlockSize then |file| - pos else BlockSize;
      assert file[pos..pos + length] == c && |c| == length;
      ghost var m := Encode(Data(WireBlock(s.blocknr + 1), c));
      blocknr := blocknr + 1;
      retries := 0;
      assert Abs() == s.(blocknr := s.blocknr + 1, retries := 0);
      var n := SendData(length);
      ghost var a := Abs();
      assert a == s.(blocknr := s.blocknr + 1, retries := 0, last := m) && sent == old(sent) + [m];
      pos := pos + length;
      totlen := totlen + length;
      assert Abs() == a.(pos := s.pos + length, totlen := s.totlen + length);
    }

    method HandleError(code: U16, text: CString)
      requires Valid() && Awaiting(phase)
      modifies this
      ensures Valid()
      ensures Abs() == OnError(old(Abs()), code, text).next && sent == old(sent)
    {
      phase := Failed(Remote(code, text));
    }

    method HandleOther()
      requires Valid() && Awaiting(phase)
      modifies this
      ensures Valid()
      ensures Abs() == OnOther(old(Abs())).next && sent == old(sent)
    {
      phase := Failed(UnknownMessage);
    }

    /** A DATA, ACK or ERROR opcode whose packet does not decode. */
    method HandleMalformed()
      requires Valid() && Awaiting(phase)
      modifies this
      ensures Valid()
      ensures Abs() == OnMalformed(old(Abs())).next && sent == old(sent)
    {
      phase := Failed(Malformed);
    }

    /** Dispatch on the opcode of the received datagram to the handler of its kind. */
    method HandleDatagram(dgram: seq<Byte>)
      requires Valid() && Awaiting(phase)
      modifies this, msgbuf
      ensures Valid()
      ensures Abs() == Receive(old(Abs()), dgram).next
      ensures sent == old(sent) + Sends(Receive(old(Abs()), dgram))
    {
      match Decode(dgram)
      case Ok(Data(blk, p)) => HandleData(blk, p);
      case Ok(Ack(blk)) => HandleAck(blk);
      case Ok(Error(code, text)) => HandleError(code, text);
      case Ok(_) => HandleOther();
      case Err(_) =>
        if HasLoopCase(dgram) {
          HandleMalformed();
        } else {
          HandleOther();
        }
    }

    method HandleEvent(ev: Event, maxRetries: nat)
      requires Valid() && Awaiting(phase)
      modifies this, msgbuf
      ensures Valid()
      ensures Abs() == Step(old(Abs()), ev, maxRetries).next
      ensures sent == old(sent) + Sends(Step(old(Abs()), ev, maxRetries))
    {
      match ev
      case TimedOut => HandleTimeout(maxRetries);
      case Arrived(d) => HandleDatagram(d);
    }
  }

  /** Open the local file, build the handle and clear its message buffer. Absent
      arguments, a type other than get or put, or a file that cannot be opened give
      no handle. `opens` says whether the file can be opened; `contents` is what a
      file being put holds (a file being got is truncated). */
  method Connect(typ: int, fname: Option<CString>, mode: Option<CString>,
                 hostname: Option<CString>, opens: bool, contents: seq<Byte>)
    returns (tc: Conn?)
    ensures tc == null <==>
              fname.None? || mode.None? || hostname.None? || KindOf(typ).None? || !opens
    ensures tc != null ==>
              fresh(tc) && fresh(tc.msgbuf) && tc.Valid() && tc.sent == [] &&
              tc.access == (if typ == TypePut then ReadBinary else WriteBinary) &&
              tc.Abs() == Init(KindOf(typ).value, fname.value, mode.value,
                               if typ == TypePut then contents else []) &&
              forall i :: 0 <= i < tc.msgbuf.Length ==> tc.msgbuf[i] == 0
  {
    if fname.None? || mode.None? || hostname.None? {
      return null;
    }
    var kind := KindOf(typ);
    if kind.None? || !opens {
      return null;
    }
    tc := new Conn(kind.value, fname.value, mode.value, if kind.value == Put then contents else []);
    forall i | 0 <= i < tc.msgbuf.Length {
      tc.msgbuf[i] := 0;
    }
  }

  /** One iteration of the transfer loop: the event at `i` is handled, and what is
      left of the run is the run of the remaining events from the new state. */
  method LoopStep(tc: Conn, maxRetries: nat, events: seq<Event>, i: nat)
    requires tc.Valid() && i < |events| && Awaiting(tc.phase)
    modifies tc, tc.msgbuf
    ensures tc.Valid()
    ensures Run(old(tc.Abs()), events[i..], maxRetries).1 == Run(tc.Abs(), events[i + 1..], maxRetries).1
    ensures old(tc.sent) + Run(old(tc.Abs()), events[i..], maxRetries).0 ==
            tc.sent + Run(tc.Abs(), events[i + 1..], maxRetries).0
  {
    ghost var cur := tc.Abs();
    ghost var before := tc.sent;
    tc.HandleEvent(events[i], maxRetries);
    EngineProps.RunAdvance(cur, tc.Abs(), events, i, maxRetries, before, tc.sent);
  }

  /** The transfer loop: handle one event at a time until the transfer ends or the
      events run out. */
  method Loop(tc: Conn, maxRetries: nat, events: seq<Event>)
    requires tc.Valid()
    modifies tc, tc.msgbuf
    ensures tc.Valid()
    ensures tc.Abs() == Run(old(tc.Abs()), events, maxRetries).1
    ensures tc.sent == old(tc.sent) + Run(old(tc.Abs()), events, maxRetries).0
  {
    ghost var r0 := Run(tc.Abs(), events, maxRetries);
    ghost var sent0 := tc.sent;
    var i := 0;
    while i < |events| && Awaiting(tc.phase)
      invariant 0 <= i <= |events|
      invariant tc.Valid()
      invariant r0.1 == Run(tc.Abs(), events[i..], maxRetries).1
      invariant sent0 + r0.0 == tc.sent + Run(tc.Abs(), events[i..], maxRetries).0
      decreases |events| - i
    {
      LoopStep(tc, maxRetries, events, i);
      i := i + 1;
    }
    ghost var cur := tc.Abs();
    assert Run(cur, events[i..], maxRetries) == ([], cur);
  }

  /** Send the request, then run the transfer loop: the whole exchange of the engine. */
  method Perform(tc: Conn, maxRetries: nat, events: seq<Event>)
    requires tc.Valid() && tc.phase == Idle
    modifies tc, tc.msgbuf
    ensures tc.Valid()
    ensures tc.Abs() == Exchange(old(tc.Abs()), events, maxRetries).1
    ensures tc.sent == old(tc.sent) + Exchange(old(tc.Abs()), events, maxRetries).0
  {
    ghost var s0 := tc.Abs();
    ghost var sent0 := tc.sent;
    var n := tc.SendRequest();
    ghost var s1 := tc.Abs();
    ghost var sent1 := tc.sent;
    Loop(tc, maxRetries, events);
    EngineProps.ExchangeSplit(s0, s1, tc.Abs(), sent0, sent1, tc.sent, events, maxRetries);
  }

  /** Transfer the file: send the request, then run the transfer loop. Returns 0 when
      the transfer is Done and -1 otherwise; `report` is the byte total printed at the
      end, skipped when the loop is left through an unknown message type. */
  method Transfer(tc: Conn?, maxRetries: nat, events: seq<Event>) returns (retval: int, report: Option<nat>)
    requires tc != null ==> tc.Valid() && tc.phase == Idle
    modifies if tc == null then {} else {tc, tc.msgbuf}
    ensures tc == null ==> retval == -1 && report.None?
    ensures tc != null ==>
              tc.Valid() &&
              tc.Abs() == Exchange(old(tc.Abs()), events, maxRetries).1 &&
              tc.sent == old(tc.sent) + Exchange(old(tc.Abs()), events, maxRetries).0
    ensures tc != null ==> (retval == 0 <==> tc.phase == Done) && (retval == 0 || retval == -1)
    ensures tc != null ==>
              (report.None? <==> tc.phase == Failed(UnknownMessage)) &&
              (report.Some? ==> report.value == tc.totlen)
  {
    if tc == null {
      return -1, None;
    }
    Perform(tc, maxRetries, events);
    retval := if tc.phase == Done then 0 else -1;
    report := if tc.phase == Failed(UnknownMessage) then None else Some(tc.totlen);
  }
}
