/** What the transfer engine guarantees: the invariant every step keeps, bounded
    retransmission, duplicate handling, block-number wrap-around, and two whole
    transfers worked through. */
module EngineProps {
  import opened Wrappers
  import opened TftpDefs
  import opened Codec
  import opened Engine

  /** The last DATA block sent while putting: `k` bytes ending at `pos`, all earlier
      blocks full, and a short block only at the end of the file. */
  ghost predicate PutSent(s: Session)
  {
    if s.blocknr == 0 then s.pos == 0 && s.last == Encode(Request(s))
    else
      var k := |s.last| - DataHdrLen;
      0 <= k <= BlockSize && k <= s.pos <= |s.file| &&
      s.pos == BlockSize * (s.blocknr - 1) + k &&
      s.last == Encode(Data(WireBlock(s.blocknr), s.file[s.pos - k..s.pos])) &&
      (k < BlockSize ==> s.pos == |s.file|)
  }

  ghost predicate Inv(s: Session)
  {
    |s.last| <= MsgBufSize && s.blocknr >= 0 &&
    (s.phase == AwaitingData ==> s.kind == Get) && (s.phase == AwaitingAck ==> s.kind == Put) &&
    (s.phase == Idle ==> s.blocknr == 0 && s.pos == 0 && s.totlen == 0) &&
    match s.kind
    case Get =>
      s.pos == 0 && s.totlen == |s.file| &&
      (s.phase == AwaitingData ==>
         |s.file| == BlockSize * s.blocknr &&
         s.last == if s.blocknr == 0 then Encode(Request(s)) else Encode(Ack(WireBlock(s.blocknr)))) &&
      (s.phase == Done ==>
         s.blocknr > 0 && BlockSize * (s.blocknr - 1) <= |s.file| < BlockSize * s.blocknr &&
         s.last == Encode(Ack(WireBlock(s.blocknr))))
    case Put =>
      s.pos <= |s.file| && s.totlen == s.pos &&
      (s.phase == AwaitingAck ==> PutSent(s)) &&
      (s.phase == Done ==> s.blocknr > 0 && s.pos == |s.file|)
  }

  lemma InitInv(kind: Kind, fname: CString, mode: CString, file: seq<Byte>)
    requires kind == Get ==> file == []
    ensures Inv(Init(kind, fname, mode, file))
  {
  }

  lemma StartInv(s: Session)
    requires Inv(s) && s.phase == Idle
    ensures Inv(Start(s).next)
  {
  }

  lemma OnDataInv(s: Session, blk: U16, p: Block)
    requires Inv(s) && Awaiting(s.phase)
    ensures Inv(OnData(s, blk, p).next)
  {
    if s.phase == AwaitingData && blk == WireBlock(s.blocknr + 1) {
      var t := OnData(s, blk, p).next;
      assert |t.file| == BlockSize * s.blocknr + |p|;
    }
  }

  lemma OnAckInv(s: Session, blk: U16)
    requires Inv(s) && Awaiting(s.phase)
    ensures Inv(OnAck(s, blk).next)
  {
    if s.phase == AwaitingAck && blk == WireBlock(s.blocknr) && !SentFinal(s) {
      var c := NextChunk(s);
      var t := OnAck(s, blk).next;
      assert t.file == s.file && t.pos == s.pos + |c|;
      assert t.file[t.pos - |c|..t.pos] == c;
      assert s.blocknr > 0 ==> |s.last| - DataHdrLen == BlockSize;
      assert t.pos == BlockSize * (t.blocknr - 1) + |c|;
      assert |t.last| - DataHdrLen == |c|;
    }
  }

  /** Every step keeps the invariant. */
  lemma StepInv(s: Session, ev: Event, maxRetries: nat)
    requires Inv(s)
    ensures Inv(Step(s, ev, maxRetries).next)
  {
    if Awaiting(s.phase) {
      match ev
      case TimedOut =>
        assert Step(s, ev, maxRetries) == OnTimeout(s, maxRetries);
      case Arrived(d) =>
        assert Step(s, ev, maxRetries) == Receive(s, d);
        ReceiveInv(s, d);
    }
  }

  lemma ReceiveInv(s: Session, d: seq<Byte>)
    requires Inv(s) && Awaiting(s.phase)
    ensures Inv(Receive(s, d).next)
  {
    match Decode(d)
    case Ok(Data(blk, p)) => OnDataInv(s, blk, p);
    case Ok(Ack(blk)) => OnAckInv(s, blk);
    case Ok(Error(code, text)) => assert Receive(s, d) == OnError(s, code, text);
    case Ok(_) => assert Receive(s, d) == OnOther(s);
    case Err(_) =>
      assert Receive(s, d) == if HasLoopCase(d) then OnMalformed(s) else OnOther(s);
  }

  /** A step never changes the direction of the transfer, nor the file being put. */
  lemma StepKeeps(s: Session, ev: Event, maxRetries: nat)
    requires Inv(s)
    ensures Step(s, ev, maxRetries).next.kind == s.kind
    ensures s.kind == Put ==> Step(s, ev, maxRetries).next.file == s.file
  {
    if Awaiting(s.phase) && ev.Arrived? {
      var d := ev.dgram;
      assert Step(s, ev, maxRetries) == Receive(s, d);
      match Decode(d)
      case Ok(Data(blk, p)) =>
      case Ok(Ack(blk)) =>
      case Ok(Error(code, text)) => assert Receive(s, d) == OnError(s, code, text);
      case Ok(_) => assert Receive(s, d) == OnOther(s);
      case Err(_) =>
        assert Receive(s, d) == if HasLoopCase(d) then OnMalformed(s) else OnOther(s);
    }
  }

  lemma {:induction false} RunInv(s: Session, evs: seq<Event>, maxRetries: nat)
    requires Inv(s)
    ensures Inv(Run(s, evs, maxRetries).1)
    decreases |evs|
  {
    if evs != [] && Awaiting(s.phase) {
      StepInv(s, evs[0], maxRetries);
      RunInv(Step(s, evs[0], maxRetries).next, evs[1..], maxRetries);
    }
  }

  /** The kind never changes, and neither does the file being put. */
  lemma {:induction false} RunKeeps(s: Session, evs: seq<Event>, maxRetries: nat)
    requires Inv(s)
    ensures Run(s, evs, maxRetries).1.kind == s.kind
    ensures s.kind == Put ==> Run(s, evs, maxRetries).1.file == s.file
    decreases |evs|
  {
    if evs != [] && Awaiting(s.phase) {
      StepInv(s, evs[0], maxRetries);
      StepKeeps(s, evs[0], maxRetries);
      RunKeeps(Step(s, evs[0], maxRetries).next, evs[1..], maxRetries);
    }
  }

  /** An upload that ends in Done has sent the whole file; a download that ends in Done
      has written whole blocks followed by one short block. */
  lemma ExchangeDone(kind: Kind, fname: CString, mode: CString, file: seq<Byte>,
                     evs: seq<Event>, maxRetries: nat)
    requires kind == Get ==> file == []
    ensures var t := Exchange(Init(kind, fname, mode, file), evs, maxRetries).1;
            t.phase == Done ==>
              (kind == Put ==> t.pos == |file| && t.totlen == |file|) &&
              (kind == Get ==>
                 t.blocknr > 0 && t.totlen == |t.file| &&
                 BlockSize * (t.blocknr - 1) <= |t.file| < BlockSize * t.blocknr)
  {
    var s := Init(kind, fname, mode, file);
    InitInv(kind, fname, mode, file);
    StartInv(s);
    var s0 := Start(s).next;
    RunInv(s0, evs, maxRetries);
    RunKeeps(s0, evs, maxRetries);
    assert Exchange(s, evs, maxRetries).1 == Run(s0, evs, maxRetries).1;
  }

  /** One step of Run, field by field. */
  lemma RunUnfold(s: Session, evs: seq<Event>, maxRetries: nat)
    requires evs != [] && Awaiting(s.phase)
    ensures var o := Step(s, evs[0], maxRetries);
            Run(s, evs, maxRetries).0 == Sends(o) + Run(o.next, evs[1..], maxRetries).0 &&
            Run(s, evs, maxRetries).1 == Run(o.next, evs[1..], maxRetries).1
  {
  }

  /** Run from position i of the events, one step further: what is left of the run
      after the event at i is the run of the rest from the state that event leads to. */
  lemma RunAdvance(s: Session, t: Session, evs: seq<Event>, i: nat, maxRetries: nat,
                   before: seq<seq<Byte>>, after: seq<seq<Byte>>)
    requires i < |evs| && Awaiting(s.phase)
    requires t == Step(s, evs[i], maxRetries).next
    requires after == before + Sends(Step(s, evs[i], maxRetries))
    ensures Run(s, evs[i..], maxRetries).1 == Run(t, evs[i + 1..], maxRetries).1
    ensures before + Run(s, evs[i..], maxRetries).0 == after + Run(t, evs[i + 1..], maxRetries).0
  {
    RunUnfold(s, evs[i..], maxRetries);
    assert evs[i..][0] == evs[i] && evs[i..][1..] == evs[i + 1..];
  }

  /** An exchange is the request, from the state it leads to the run of the events. */
  lemma ExchangeSplit(s0: Session, s1: Session, s2: Session, sent0: seq<seq<Byte>>,
                      sent1: seq<seq<Byte>>, sent2: seq<seq<Byte>>, evs: seq<Event>, maxRetries: nat)
    requires s0.phase == Idle
    requires s1 == Start(s0).next && sent1 == sent0 + Sends(Start(s0))
    requires s2 == Run(s1, evs, maxRetries).1 && sent2 == sent1 + Run(s1, evs, maxRetries).0
    ensures s2 == Exchange(s0, evs, maxRetries).1
    ensures sent2 == sent0 + Exchange(s0, evs, maxRetries).0
  {
    var o := Start(s0);
    var r := Run(s1, evs, maxRetries);
    assert Exchange(s0, evs, maxRetries) == (Sends(o) + r.0, r.1);
    AppendAssoc(sent0, Sends(o), r.0);
  }

  /** Nothing is sent once the transfer has ended. */
  lemma QuietAfterEnd(s: Session, evs: seq<Event>, maxRetries: nat)
    requires s.phase.Done? || s.phase.Failed?
    ensures Run(s, evs, maxRetries) == ([], s)
  {
  }

  /** A timeout within the budget sends the stored last message again, unchanged, and
      changes nothing but the retry count; past the budget the transfer fails silently. */
  lemma TimeoutResendsLast(s: Session, maxRetries: nat)
    requires Awaiting(s.phase)
    ensures s.retries < maxRetries ==>
              Step(s, TimedOut, maxRetries) == Outcome(s.(retries := s.retries + 1), Some(s.last))
    ensures s.retries >= maxRetries ==>
              Step(s, TimedOut, maxRetries) == Outcome(s.(phase := Failed(Timeout)), None)
  {
  }

  function Timeouts(n: nat): (evs: seq<Event>)
    ensures |evs| == n && forall i :: 0 <= i < n ==> evs[i] == TimedOut
  {
    seq(n, _ => TimedOut)
  }

  function Copies(m: seq<Byte>, n: nat): (out: seq<seq<Byte>>)
    ensures |out| == n && forall i :: 0 <= i < n ==> out[i] == m
  {
    seq(n, _ => m)
  }

  /** With `n` retries left, n + 1 consecutive timeouts resend the last message n times
      and then fail the transfer. */
  lemma {:induction false} TimeoutsExhaust(s: Session, maxRetries: nat, n: nat)
    requires Awaiting(s.phase) && s.retries + n == maxRetries
    ensures Run(s, Timeouts(n + 1), maxRetries) ==
            (Copies(s.last, n), s.(retries := maxRetries, phase := Failed(Timeout)))
    decreases n
  {
    var evs := Timeouts(n + 1);
    if n == 0 {
      assert s.retries == maxRetries;
      assert Step(s, evs[0], maxRetries) == Outcome(s.(phase := Failed(Timeout)), None);
      assert evs[1..] == [];
      assert s.(phase := Failed(Timeout)) == s.(retries := maxRetries, phase := Failed(Timeout));
      assert Run(s.(phase := Failed(Timeout)), evs[1..], maxRetries) == ([], s.(phase := Failed(Timeout)));
      assert Copies(s.last, 0) == [];
      assert Run(s, evs, maxRetries) == ([] + [], s.(phase := Failed(Timeout)));
      assert Timeouts(n + 1) == evs;
      assert Copies(s.last, n) == [];
      assert Run(s, Timeouts(n + 1), maxRetries).0 == Copies(s.last, n);
      assert Run(s, Timeouts(n + 1), maxRetries).1 == s.(retries := maxRetries, phase := Failed(Timeout));
    } else {
      var s' := s.(retries := s.retries + 1);
      assert Step(s, evs[0], maxRetries) == Outcome(s', Some(s.last));
      assert evs[1..] == Timeouts(n);
      TimeoutsExhaust(s', maxRetries, n - 1);
      assert [s.last] + Copies(s.last, n - 1) == Copies(s.last, n);
    }
  }

  /** A DATA packet with a block number other than the next one is not written; the last
      message (the previous ACK) is sent again. */
  lemma DuplicateDataNotWritten(s: Session, dgram: seq<Byte>, maxRetries: nat)
    requires s.phase == AwaitingData
    requires Decode(dgram).Ok? && Decode(dgram).value.Data?
    requires Decode(dgram).value.blocknr != WireBlock(s.blocknr + 1)
    ensures Step(s, Arrived(dgram), maxRetries) == Outcome(s, Some(s.last))
  {
  }

  /** An ACK for anything but the block just sent does not advance the transfer; the
      same DATA packet is sent again. */
  lemma DuplicateAckResends(s: Session, dgram: seq<Byte>, maxRetries: nat)
    requires s.phase == AwaitingAck
    requires Decode(dgram).Ok? && Decode(dgram).value.Ack?
    requires Decode(dgram).value.blocknr != WireBlock(s.blocknr)
    ensures Step(s, Arrived(dgram), maxRetries) == Outcome(s, Some(s.last))
  {
  }

  /** The next DATA block is written, acknowledged with its own block number, and
      resets the retry count. */
  lemma AcceptData(s: Session, p: Block, maxRetries: nat)
    requires s.phase == AwaitingData
    ensures var n := WireBlock(s.blocknr + 1);
            Step(s, Arrived(Encode(Data(n, p))), maxRetries) ==
            Outcome(s.(file := s.file + p, totlen := s.totlen + |p|, blocknr := s.blocknr + 1,
                       retries := 0, phase := if |p| < BlockSize then Done else AwaitingData,
                       last := Encode(Ack(n))),
                    Some(Encode(Ack(n))))
  {
    var n := WireBlock(s.blocknr + 1);
    RoundTrip(Data(n, p));
    assert Receive(s, Encode(Data(n, p))) == OnData(s, n, p);
  }

  /** The ACK of the block just sent, when that block was full (or was the WRQ), makes
      the next block of the file go out under the next block number. */
  lemma AckReleasesNextBlock(s: Session, maxRetries: nat)
    requires s.phase == AwaitingAck && !SentFinal(s)
    ensures var c := NextChunk(s);
            var n := WireBlock(s.blocknr + 1);
            Step(s, Arrived(Encode(Ack(WireBlock(s.blocknr)))), maxRetries) ==
            Outcome(s.(blocknr := s.blocknr + 1, pos := s.pos + |c|, totlen := s.totlen + |c|,
                       retries := 0, last := Encode(Data(n, c))),
                    Some(Encode(Data(n, c))))
  {
    RoundTrip(Ack(WireBlock(s.blocknr)));
    assert Receive(s, Encode(Ack(WireBlock(s.blocknr)))) == OnAck(s, WireBlock(s.blocknr));
  }

  /** A request packet, or a datagram whose opcode is not DATA, ACK or ERROR (or that is
      too short to carry one), has no case in the transfer loop: the transfer fails with
      nothing sent. */
  lemma UnhandledFails(s: Session, dgram: seq<Byte>, maxRetries: nat)
    requires Awaiting(s.phase)
    requires !HasLoopCase(dgram) || (Decode(dgram).Ok? && Decode(dgram).value.Rrq?) ||
             (Decode(dgram).Ok? && Decode(dgram).value.Wrq?)
    ensures Step(s, Arrived(dgram), maxRetries) == Outcome(s.(phase := Failed(UnknownMessage)), None)
  {
    if Decode(dgram).Ok? {
      assert IsOpcode(ReadWord(dgram[0], dgram[1]));
    }
  }

  /** A DATA, ACK or ERROR opcode whose packet does not decode (truncated, oversized, or
      an unterminated text) stops the transfer inside that opcode's case, with nothing
      sent; it is not an unknown message type. */
  lemma MalformedFails(s: Session, dgram: seq<Byte>, maxRetries: nat)
    requires Awaiting(s.phase)
    requires HasLoopCase(dgram) && Decode(dgram).Err?
    ensures Step(s, Arrived(dgram), maxRetries) == Outcome(s.(phase := Failed(Malformed)), None)
  {
  }

  /** Every datagram whose opcode has a loop case ends in that case: it never reaches the
      unknown-message exit. */
  lemma LoopCaseNotUnknown(s: Session, dgram: seq<Byte>, maxRetries: nat)
    requires Awaiting(s.phase) && HasLoopCase(dgram)
    ensures Step(s, Arrived(dgram), maxRetries).next.phase != Failed(UnknownMessage)
  {
    if Decode(dgram).Ok? {
      var m := Decode(dgram).value;
      assert Opcode(m) == ReadWord(dgram[0], dgram[1]);
      assert m.Data? || m.Ack? || m.Error?;
    }
  }

  /** After block 65535 the next block on the wire is block 0, and it is accepted as the
      next block, not treated as a duplicate. */
  lemma DataAcrossWrap(s: Session, p: Block, maxRetries: nat)
    requires s.phase == AwaitingData && WireBlock(s.blocknr) == 0xFFFF
    ensures var o := Step(s, Arrived(Encode(Data(0, p))), maxRetries);
            o.next.file == s.file + p && o.next.blocknr == s.blocknr + 1 &&
            o.sent == Some(Encode(Ack(0)))
  {
    WireBlockSucc(s.blocknr);
    AcceptData(s, p, maxRetries);
  }

  /** An ERROR packet ends the transfer at once, carrying the peer's code and text, and
      nothing is sent in reply. */
  lemma ErrorEndsTransfer(s: Session, code: U16, text: CString, maxRetries: nat)
    requires Awaiting(s.phase)
    ensures Step(s, Arrived(Encode(Error(code, text))), maxRetries) ==
            Outcome(s.(phase := Failed(Remote(code, text))), None)
  {
    RoundTrip(Error(code, text));
  }

  /** Run over a next DATA block, into state `t`. */
  lemma RunAccept(s: Session, t: Session, p: Block, evs: seq<Event>, maxRetries: nat)
    requires s.phase == AwaitingData && evs != []
    requires evs[0] == Arrived(Encode(Data(WireBlock(s.blocknr + 1), p)))
    requires t == s.(file := s.file + p, totlen := s.totlen + |p|, blocknr := s.blocknr + 1,
                     retries := 0, phase := if |p| < BlockSize then Done else AwaitingData,
                     last := Encode(Ack(WireBlock(s.blocknr + 1))))
    ensures Run(s, evs, maxRetries).0 == [Encode(Ack(WireBlock(s.blocknr + 1)))] + Run(t, evs[1..], maxRetries).0
    ensures Run(s, evs, maxRetries).1 == Run(t, evs[1..], maxRetries).1
  {
    AcceptData(s, p, maxRetries);
    RunUnfold(s, evs, maxRetries);
  }

  /** The last two blocks of the download below: a full block 2, then a short block 3. */
  lemma ReceiveLastTwo(s1: Session, p1: Block, p2: Block, p3: Block, maxRetries: nat)
    requires s1.phase == AwaitingData && s1.blocknr == 1 && s1.file == p1 && s1.totlen == 512
    requires |p2| == BlockSize && |p3| == 1
    ensures var evs := [Arrived(Encode(Data(2, p2))), Arrived(Encode(Data(3, p3)))];
            Run(s1, evs, maxRetries).0 == [Encode(Ack(2)), Encode(Ack(3))] &&
            Run(s1, evs, maxRetries).1.phase == Done &&
            Run(s1, evs, maxRetries).1.file == p1 + p2 + p3 &&
            Run(s1, evs, maxRetries).1.totlen == 1025
  {
    var e2, e3 := Arrived(Encode(Data(2, p2))), Arrived(Encode(Data(3, p3)));
    var s2 := s1.(file := p1 + p2, totlen := 1024, blocknr := 2, retries := 0, last := Encode(Ack(2)));
    var s3 := s2.(file := p1 + p2 + p3, totlen := 1025, blocknr := 3, phase := Done, last := Encode(Ack(3)));
    assert [e2, e3][1..] == [e3] && [e3][1..] == [];
    assert WireBlock(2) == 2 && WireBlock(3) == 3;
    RunAccept(s2, s3, p3, [e3], maxRetries);
    RunAccept(s1, s2, p2, [e2, e3], maxRetries);
  }

  /** Three DATA blocks received in order from block 0 on, the last one short. */
  lemma ReceiveThreeBlocks(s0: Session, p1: Block, p2: Block, p3: Block, maxRetries: nat)
    requires s0.phase == AwaitingData && s0.blocknr == 0 && s0.file == [] && s0.totlen == 0
    requires |p1| == BlockSize && |p2| == BlockSize && |p3| == 1
    ensures var evs := [Arrived(Encode(Data(1, p1))), Arrived(Encode(Data(2, p2))),
                        Arrived(Encode(Data(3, p3)))];
            Run(s0, evs, maxRetries).0 == [Encode(Ack(1)), Encode(Ack(2)), Encode(Ack(3))] &&
            Run(s0, evs, maxRetries).1.phase == Done &&
            Run(s0, evs, maxRetries).1.file == p1 + p2 + p3 &&
            Run(s0, evs, maxRetries).1.totlen == 1025
  {
    var e1, e2, e3 := Arrived(Encode(Data(1, p1))), Arrived(Encode(Data(2, p2))), Arrived(Encode(Data(3, p3)));
    var s1 := s0.(file := p1, totlen := 512, blocknr := 1, retries := 0, last := Encode(Ack(1)));
    assert [e1, e2, e3][1..] == [e2, e3];
    assert s1.file == s0.file + p1 && WireBlock(1) == 1;
    ReceiveLastTwo(s1, p1, p2, p3, maxRetries);
    RunAccept(s0, s1, p1, [e1, e2, e3], maxRetries);
  }

  /** Getting a 1025-byte file as blocks of 512, 512 and 1 bytes: the RRQ, then three
      ACKs for blocks 1, 2 and 3 in order, exactly the 1025 bytes written, and Done. */
  lemma DownloadThreeBlocks(fname: CString, mode: CString, p1: Block, p2: Block, p3: Block,
                            maxRetries: nat)
    requires |fname| + |mode| <= MsgBufSize - 4
    requires |p1| == BlockSize && |p2| == BlockSize && |p3| == 1
    ensures var evs := [Arrived(Encode(Data(1, p1))), Arrived(Encode(Data(2, p2))),
                        Arrived(Encode(Data(3, p3)))];
            var x := Exchange(Init(Get, fname, mode, []), evs, maxRetries);
            x.0 == [Encode(Rrq(fname, mode)), Encode(Ack(1)), Encode(Ack(2)), Encode(Ack(3))] &&
            x.1.phase == Done && x.1.file == p1 + p2 + p3 && x.1.totlen == 1025
  {
    var s := Init(Get, fname, mode, []);
    var s0 := Start(s).next;
    assert Sends(Start(s)) == [Encode(Rrq(fname, mode))];
    ReceiveThreeBlocks(s0, p1, p2, p3, maxRetries);
  }

  /** Putting an empty file: the WRQ, one DATA packet for block 1 with no payload once
      the WRQ is acknowledged with block 0, then Done on its ACK with nothing more sent. */
  lemma UploadEmptyFile(fname: CString, mode: CString, maxRetries: nat)
    requires |fname| + |mode| <= MsgBufSize - 4
    ensures var (out, t) := Exchange(Init(Put, fname, mode, []),
                                     [Arrived(Encode(Ack(0))), Arrived(Encode(Ack(1)))], maxRetries);
            out == [Encode(Wrq(fname, mode)), Encode(Data(1, []))] && t.phase == Done
  {
    RoundTrip(Ack(0));
    RoundTrip(Ack(1));
    var evs := [Arrived(Encode(Ack(0))), Arrived(Encode(Ack(1)))];
    var s0 := Start(Init(Put, fname, mode, [])).next;
    var s1 := Step(s0, evs[0], maxRetries).next;
    assert s1.blocknr == 1 && s1.last == Encode(Data(1, [])) && s1.phase == AwaitingAck;
    var s2 := Step(s1, evs[1], maxRetries).next;
    assert s2.phase == Done;
    assert evs[1..][1..] == [];
  }
}
