/** The lockstep transfer of one file as a state machine over abstract events
    (RFC 1350, sections 2, 4 and 6): each step consumes a timeout or a received
    datagram and sends at most one datagram. */
module Engine {
  import opened Wrappers
  import opened TftpDefs
  import opened Codec

  /** Getting (download, RRQ) or putting (upload, WRQ) a file. */
  datatype Kind = Get | Put

  datatype Failure =
    | Timeout                      // the retry budget was spent waiting
    | Remote(code: U16, text: CString)   // the peer sent an ERROR packet
    | UnexpectedKind               // a DATA while putting, an ACK while getting
    | UnknownMessage               // an opcode the transfer loop has no case for, or too short for one
    | Malformed                    // a DATA, ACK or ERROR opcode whose packet does not decode
    | RequestTooLong               // the request does not fit the message buffer

  datatype Phase = Idle | AwaitingData | AwaitingAck | Done | Failed(why: Failure)

  predicate Awaiting(p: Phase)
  {
    p.AwaitingData? || p.AwaitingAck?
  }

  /** The abstract state of a connection. `blocknr` counts blocks (the wire carries it
      modulo 2^16); `last` is the last datagram sent, kept for retransmission; `file` is
      the local file (read from at `pos` when putting, appended to when getting) and
      `totlen` counts the data bytes transferred. */
  datatype Session = Session(
    kind: Kind, fname: CString, mode: CString,
    blocknr: int, last: seq<Byte>, retries: nat, phase: Phase,
    file: seq<Byte>, pos: nat, totlen: nat)

  datatype Event = TimedOut | Arrived(dgram: seq<Byte>)

  /** A step's new state and the datagram it sends, if any. */
  datatype Outcome = Outcome(next: Session, sent: Option<seq<Byte>>)

  function Sends(o: Outcome): seq<seq<Byte>>
  {
    if o.sent.Some? then [o.sent.value] else []
  }

  /** A fresh connection: nothing sent, block 0. */
  function Init(kind: Kind, fname: CString, mode: CString, file: seq<Byte>): Session
  {
    Session(kind, fname, mode, 0, [], 0, Idle, file, 0, 0)
  }

  function Request(s: Session): Msg
  {
    if s.kind == Get then Rrq(s.fname, s.mode) else Wrq(s.fname, s.mode)
  }

  /** Store `m` as the last message and send it. */
  function Emit(s: Session, m: seq<Byte>): Outcome
  {
    Outcome(s.(last := m), Some(m))
  }

  /** Send the stored last message again, unchanged. */
  function Resend(s: Session): Outcome
  {
    Outcome(s, Some(s.last))
  }

  function Quiet(s: Session): Outcome
  {
    Outcome(s, None)
  }

  /** Send the RRQ (getting) or the WRQ (putting) and wait for the first reply. */
  function Start(s: Session): Outcome
    requires s.phase == Idle
  {
    var req := Encode(Request(s));
    if |req| > MsgBufSize then Quiet(s.(phase := Failed(RequestTooLong)))
    else Emit(s.(phase := if s.kind == Get then AwaitingData else AwaitingAck, retries := 0), req)
  }

  function OnTimeout(s: Session, maxRetries: nat): Outcome
    requires Awaiting(s.phase)
  {
    if s.retries < maxRetries then Resend(s.(retries := s.retries + 1))
    else Quiet(s.(phase := Failed(Timeout)))
  }

  /** A DATA packet: the next block is written and acknowledged, a block shorter than
      BlockSize ends the transfer; any other block number gets the last ACK again. */
  function OnData(s: Session, blk: U16, payload: Block): Outcome
    requires Awaiting(s.phase)
  {
    if s.phase != AwaitingData then Quiet(s.(phase := Failed(UnexpectedKind)))
    else if blk != WireBlock(s.blocknr + 1) then Resend(s)
    else
      var s' := s.(file := s.file + payload, totlen := s.totlen + |payload|,
                   blocknr := s.blocknr + 1, retries := 0,
                   phase := if |payload| < BlockSize then Done else AwaitingData);
      Emit(s', Encode(Ack(WireBlock(s'.blocknr))))
  }

  /** The next block of the file: up to BlockSize bytes from `pos`. */
  function NextChunk(s: Session): (c: Block)
    ensures s.pos <= |s.file| ==> s.pos + |c| <= |s.file| && c == s.file[s.pos..s.pos + |c|]
    ensures s.pos <= |s.file| ==> (|c| < BlockSize <==> s.pos + |c| == |s.file| && |s.file| - s.pos < BlockSize)
  {
    if s.pos > |s.file| then []
    else if |s.file| - s.pos <= BlockSize then s.file[s.pos..]
    else s.file[s.pos..s.pos + BlockSize]
  }

  /** The DATA block just sent was the last one: it carries fewer than BlockSize bytes. */
  predicate SentFinal(s: Session)
  {
    s.blocknr > 0 && |s.last| - DataHdrLen < BlockSize
  }

  /** An ACK packet: the ACK of the block just sent (block 0 for the WRQ) releases the
      next block, or ends the transfer after the final one; any other block number gets
      the last DATA again. */
  function OnAck(s: Session, blk: U16): Outcome
    requires Awaiting(s.phase)
  {
    if s.phase != AwaitingAck then Quiet(s.(phase := Failed(UnexpectedKind)))
    else if blk != WireBlock(s.blocknr) then Resend(s)
    else if SentFinal(s) then Quiet(s.(phase := Done, retries := 0))
    else
      var c := NextChunk(s);
      var s' := s.(blocknr := s.blocknr + 1, pos := s.pos + |c|, totlen := s.totlen + |c|, retries := 0);
      Emit(s', Encode(Data(WireBlock(s'.blocknr), c)))
  }

  function OnError(s: Session, code: U16, text: CString): Outcome
    requires Awaiting(s.phase)
  {
    Quiet(s.(phase := Failed(Remote(code, text))))
  }

  function OnOther(s: Session): Outcome
    requires Awaiting(s.phase)
  {
    Quiet(s.(phase := Failed(UnknownMessage)))
  }

  /** A datagram whose opcode has a case in the transfer loop (DATA, ACK or ERROR) but
      whose packet does not decode: the transfer stops inside that case. */
  function OnMalformed(s: Session): Outcome
    requires Awaiting(s.phase)
  {
    Quiet(s.(phase := Failed(Malformed)))
  }

  /** The opcode of the datagram is one the transfer loop has a case for. */
  predicate HasLoopCase(dgram: seq<Byte>)
  {
    |dgram| >= 2 && OpData <= ReadWord(dgram[0], dgram[1]) <= OpErr
  }

  /** Dispatch on the received packet's opcode, as the transfer loop's switch does. */
  function Receive(s: Session, dgram: seq<Byte>): Outcome
    requires Awaiting(s.phase)
  {
    match Decode(dgram)
    case Ok(Data(blk, p)) => OnData(s, blk, p)
    case Ok(Ack(blk)) => OnAck(s, blk)
    case Ok(Error(code, text)) => OnError(s, code, text)
    case Ok(_) => OnOther(s)
    case Err(_) => if HasLoopCase(dgram) then OnMalformed(s) else OnOther(s)
  }

  function Step(s: Session, ev: Event, maxRetries: nat): Outcome
  {
    if !Awaiting(s.phase) then Quiet(s)
    else match ev
      case TimedOut => OnTimeout(s, maxRetries)
      case Arrived(d) => Receive(s, d)
  }

  /** Feed events until they run out or the transfer has ended; the final state and
      everything sent, in order. */
  function Run(s: Session, evs: seq<Event>, maxRetries: nat): (seq<seq<Byte>>, Session)
    decreases |evs|
  {
    if evs == [] || !Awaiting(s.phase) then ([], s)
    else
      var o := Step(s, evs[0], maxRetries);
      var r := Run(o.next, evs[1..], maxRetries);
      (Sends(o) + r.0, r.1)
  }

  /** A whole transfer from a fresh connection: the request, then the events. */
  function Exchange(s: Session, evs: seq<Event>, maxRetries: nat): (seq<seq<Byte>>, Session)
    requires s.phase == Idle
  {
    var o := Start(s);
    var r := Run(o.next, evs, maxRetries);
    (Sends(o) + r.0, r.1)
  }
}
