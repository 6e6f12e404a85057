/** The TFTP download engine as a function of its state: what each callback of
    the transfer does to the transfer record, to its packet sink and to the
    outside world (datagrams sent, data handed to the file, packets freed).
    The class in module TftpTransfer is proved to follow these functions; the
    lemmas here state what the protocol promises of them. */
module TftpEngine {
  import opened TftpWire
  import Q40Timer

  /** Timer interval while waiting for the reply to a read request, in ms. */
  const RrqTimeoutMs: int := 1000
  /** Timer interval while data is flowing, in ms. */
  const DataTimeoutMs: int := 250
  /** Retransmissions allowed for one block before the transfer is abandoned. */
  const MaxRetransmits: int := 10

  const DefaultBlockSize: U16 := 512
  const DefaultWindowSize: int := 1

  /** Where a datagram goes: a given UDP port of the server (the read request
      goes to the well-known port `TftpPort`), or the server's port as the sink
      has it. */
  datatype Dest = ServerPort(port: U16) | SinkPeer

  /** A datagram handed to `net_tx`: its destination and its UDP payload. */
  datatype Datagram = Datagram(dest: Dest, payload: seq<Byte>)

  /** A received UDP datagram: its payload and its UDP source port. */
  datatype Packet = Packet(data: seq<Byte>, sourcePort: U16)

  /** The parameters the server's option acknowledgement can change: block
      size, window size, the block number that follows 65535, and the
      transfer-size hint. */
  datatype Options = Options(blockSize: U16, windowSize: int, rollover: U16, totalSize: int)

  /** The state one transfer's callbacks read and write.
      From the transfer record: the remote filename, the negotiated options,
      the last block accepted and acknowledged, the bytes received, the three
      flags and the two retransmit counters. From the packet sink: the duration in ticks the timer was last
      armed with, and the remote port the sink matches. Effects: every datagram
      transmitted, every buffer handed to the file write, every packet freed. */
  datatype Conn = Conn(
    filename: seq<Byte>,
    opts: Options,
    lastBlock: U16,
    lastAck: U16,
    bytesReceived: int,
    started: bool,
    completed: bool,
    success: bool,
    retransmitsThisBlock: int,
    retransmitsTotal: int,
    timer: int,
    remotePort: U16,
    sent: seq<Datagram>,
    writes: seq<seq<Byte>>,
    freed: seq<Packet>)

  /** What the callbacks keep true: the per-block counter never passes the
      ceiling by more than one, success is only ever reported on completion,
      and the counts are not negative. */
  predicate Inv(c: Conn) {
    0 <= c.retransmitsThisBlock <= MaxRetransmits + 1 &&
    0 <= c.retransmitsTotal &&
    0 <= c.bytesReceived &&
    (c.success ==> c.completed)
  }

  /** The record as `tftp_receive` sets it up: zeroed, then block size 512 and
      window 1; no timer armed and no remote port yet. */
  function Initial(filename: seq<Byte>): (c: Conn)
    ensures Inv(c)
  {
    Conn(filename, Options(DefaultBlockSize, DefaultWindowSize, 0, 0), 0, 0, 0,
         false, false, false, 0, 0, 0, 0, [], [], [])
  }

  /** `net_tx(tftp_create_ack(sink))`: an ACK for the last block accepted, which
      becomes the last block acknowledged. */
  function SendAck(c: Conn): Conn {
    c.(lastAck := c.lastBlock,
       sent := c.sent + [Datagram(SinkPeer, AckMessage(c.lastBlock))])
  }

  /** `net_tx(tftp_create_rrq(sink))`. */
  function SendRrq(c: Conn): Conn {
    c.(sent := c.sent + [Datagram(ServerPort(TftpPort), RrqMessage(c.filename))])
  }

  /** `tftp_timer_expired`. */
  function OnTimer(c: Conn): Conn {
    if c.retransmitsThisBlock > MaxRetransmits then
      c.(completed := true, success := false)
    else if c.completed then
      c
    else
      Resend(c)
  }

  /** The retransmission of `tftp_timer_expired`: the request again before
      the first reply, an ACK of the last block after it, with the matching
      timeout; both counters go up by one. */
  function Resend(c: Conn): Conn {
    var c1 := if !c.started then SendRrq(c.(timer := Q40Timer.SetTimerMs(RrqTimeoutMs)))
              else SendAck(c.(timer := Q40Timer.SetTimerMs(DataTimeoutMs)));
    c1.(retransmitsThisBlock := c1.retransmitsThisBlock + 1,
        retransmitsTotal := c1.retransmitsTotal + 1)
  }

  /** What `tftp_receive` does to start the transfer: a synthesised timer
      expiry sends the read request, then both counters are reset. */
  function Start(c: Conn): Conn {
    OnTimer(c).(retransmitsThisBlock := 0, retransmitsTotal := 0)
  }

  /** One recognised option updates its field with the `atoi` of the value,
      truncated to 16 bits for the `uint16_t` fields; other keys are ignored. */
  function ApplyOption(o: Options, p: OptionPair): Options {
    var v := Atoi(p.value);
    if p.key == RolloverKey then o.(rollover := v % 0x1_0000)
    else if p.key == TsizeKey then o.(totalSize := v)
    else if p.key == BlksizeKey then o.(blockSize := v % 0x1_0000)
    else if p.key == WindowsizeKey then o.(windowSize := v)
    else o
  }

  function ApplyOptions(o: Options, pairs: seq<OptionPair>): Options
    decreases |pairs|
  {
    if pairs == [] then o else ApplyOptions(ApplyOption(o, pairs[0]), pairs[1..])
  }

  /** One round of the option loop of `tftp_process_options_ack`: when both
      scans stop before the end of the payload, the pair between them is the
      next one parsed, and is applied before the rest. */
  lemma ApplyParsedStep(o: Options, msg: seq<Byte>, ptr: nat, k: nat, e: nat, p: OptionPair, next: nat)
    requires ptr <= |msg| && k == NulFrom(msg, ptr) < |msg|
    requires e == NulFrom(msg, k + 1) < |msg| && next == e + 1
    requires p == OptionPair(msg[ptr..k], msg[k + 1..e])
    ensures ApplyOptions(o, ParseOptions(msg, ptr)) == ApplyOptions(ApplyOption(o, p), ParseOptions(msg, next))
  {
    ParseOptionsStep(msg, ptr, k, e, p, next);
    ApplyOptionsCons(o, p, ParseOptions(msg, next));
  }

  lemma ApplyOptionsCons(o: Options, p: OptionPair, rest: seq<OptionPair>)
    ensures ApplyOptions(o, [p] + rest) == ApplyOptions(ApplyOption(o, p), rest)
  {
    assert ([p] + rest)[1..] == rest;
  }

  /** `tftp_process_options_ack`: apply the options of the payload, then agree
      to them with an ACK of block 0 and arm the data timeout. */
  function OnOptionsAck(c: Conn, msg: seq<Byte>): Conn
    requires |msg| >= 2
  {
    var c1 := c.(opts := ApplyOptions(c.opts, ParseOptions(msg, 2)), lastBlock := 0);
    SendAck(c1).(timer := Q40Timer.SetTimerMs(DataTimeoutMs))
  }

  /** The block number expected after `last`: the next one modulo 2^16, or the
      negotiated rollover value where that would be 0. */
  function ExpectedBlock(last: U16, rollover: U16): U16 {
    var next := (last + 1) % 0x1_0000;
    if next == 0 then rollover else next
  }

  /** The block number of a DATA message. */
  function BlockNumber(msg: seq<Byte>): U16
    requires |msg| >= 4
  {
    ReadBigEndian16(msg[2], msg[3])
  }

  /** The handling of an accepted block's `data`: write it when there is any,
      failing the transfer when the write fails, then finish successfully on a
      block shorter than the block size. */
  function Accept(c: Conn, data: seq<Byte>, writeOk: bool): Conn {
    var c1 :=
      if |data| > 0 then
        var w := c.(writes := c.writes + [data], bytesReceived := c.bytesReceived + |data|);
        if writeOk then w else w.(completed := true, success := false)
      else c;
    if !c1.completed && |data| < c1.opts.blockSize then c1.(completed := true, success := true)
    else c1
  }

  /** The block check of `tftp_process_data`: a block with the expected number
      becomes the last block, restarts the per-block count and is accepted; any
      other block changes nothing. */
  function TakeBlock(c: Conn, msg: seq<Byte>, writeOk: bool): Conn
    requires |msg| >= 4
  {
    var rx := BlockNumber(msg);
    if rx == ExpectedBlock(c.lastBlock, c.opts.rollover) then
      Accept(c.(lastBlock := rx, retransmitsThisBlock := 0), msg[4..], writeOk)
    else c
  }

  /** The window rule of `tftp_process_data`: ACK once the last block has
      reached the last acknowledged plus the window size. */
  function AckWindow(c: Conn): Conn {
    if c.lastBlock >= c.lastAck + c.opts.windowSize then SendAck(c) else c
  }

  /** `tftp_process_data`. */
  function OnData(c: Conn, msg: seq<Byte>, writeOk: bool): Conn
    requires |msg| >= 4
  {
    AckWindow(TakeBlock(c, msg, writeOk)).(timer := Q40Timer.SetTimerMs(DataTimeoutMs))
  }

  /** The opcode of a message. */
  function Opcode(msg: seq<Byte>): U16
    requires |msg| >= 2
  {
    ReadBigEndian16(msg[0], msg[1])
  }

  /** What the engine reads of a packet without checking its length: the opcode,
      and for DATA the block number. */
  predicate Readable(p: Packet) {
    |p.data| >= 2 && (Opcode(p.data) == OpData ==> |p.data| >= 4)
  }

  /** `tftp_packet_received`: lock on to the server's port on the first reply,
      dispatch on the opcode, free the packet. */
  function OnPacket(c: Conn, p: Packet, writeOk: bool): Conn
    requires Readable(p)
  {
    var c1 := if !c.started then c.(remotePort := p.sourcePort, started := true) else c;
    var c2 := Dispatch(c1, p, writeOk);
    c2.(freed := c2.freed + [p])
  }

  /** The opcode switch of `tftp_packet_received`: OACK and DATA go to their
      handlers; ERROR and anything else fail the transfer. */
  function Dispatch(c: Conn, p: Packet, writeOk: bool): Conn
    requires Readable(p)
  {
    var op := Opcode(p.data);
    if op == OpOptionsAck then OnOptionsAck(c, p.data)
    else if op == OpData then OnData(c, p.data, writeOk)
    else c.(completed := true, success := false)
  }

  // ---------------------------------------------------------------------------
  // Invariants

  lemma OnTimerInv(c: Conn)
    requires Inv(c)
    ensures Inv(OnTimer(c))
  {
  }

  lemma OnOptionsAckInv(c: Conn, msg: seq<Byte>)
    requires Inv(c) && |msg| >= 2
    ensures Inv(OnOptionsAck(c, msg))
  {
  }

  lemma OnDataInv(c: Conn, msg: seq<Byte>, writeOk: bool)
    requires Inv(c) && |msg| >= 4
    ensures Inv(OnData(c, msg, writeOk))
  {
    if BlockNumber(msg) == ExpectedBlock(c.lastBlock, c.opts.rollover) {
      AcceptFields(c.(lastBlock := BlockNumber(msg), retransmitsThisBlock := 0), msg[4..], writeOk);
    }
  }

  lemma OnPacketInv(c: Conn, p: Packet, writeOk: bool)
    requires Inv(c) && Readable(p)
    ensures Inv(OnPacket(c, p, writeOk))
  {
    var c1 := if !c.started then c.(remotePort := p.sourcePort, started := true) else c;
    if Opcode(p.data) == OpData {
      OnDataInv(c1, p.data, writeOk);
    }
  }

  // ---------------------------------------------------------------------------
  // Timer expiry and the retransmit ceiling

  /** Timer expiry: past the ceiling the transfer fails and nothing is sent;
      a completed transfer is left alone; otherwise the request (not started)
      or an ACK of the last block (started) is sent again, the timer rearmed
      for 1000 or 250 ms, and both counters go up by one. */
  lemma TimerExpiry(c: Conn)
    ensures var r := OnTimer(c);
      if c.retransmitsThisBlock > MaxRetransmits then
        r.completed && !r.success && r.sent == c.sent &&
        r.retransmitsThisBlock == c.retransmitsThisBlock &&
        r.retransmitsTotal == c.retransmitsTotal
      else if c.completed then r == c
      else
        r.retransmitsThisBlock == c.retransmitsThisBlock + 1 &&
        r.retransmitsTotal == c.retransmitsTotal + 1 &&
        r.completed == c.completed && r.success == c.success &&
        r.lastBlock == c.lastBlock && r.started == c.started &&
        (!c.started ==> r.sent == c.sent + [Datagram(ServerPort(TftpPort), RrqMessage(c.filename))] &&
                        r.timer == 200 && r.lastAck == c.lastAck) &&
        (c.started ==> r.sent == c.sent + [Datagram(SinkPeer, AckMessage(c.lastBlock))] &&
                       r.timer == 50 && r.lastAck == c.lastBlock)
  {
    Q40Timer.EngineTimeouts();
  }

  /** `n` timer expiries in a row, with no packet in between. */
  function Expire(c: Conn, n: nat): Conn
    decreases n
  {
    if n == 0 then c else Expire(OnTimer(c), n - 1)
  }

  /** From a fresh per-block counter, the first 11 expiries each retransmit and
      the transfer carries on; the 12th fails it; no further expiry sends
      anything. */
  lemma {:induction false} RetransmitCeiling(c: Conn, n: nat)
    requires !c.completed && c.retransmitsThisBlock == 0
    ensures n <= MaxRetransmits + 1 ==>
      !Expire(c, n).completed && |Expire(c, n).sent| == |c.sent| + n &&
      Expire(c, n).retransmitsThisBlock == n
    ensures n > MaxRetransmits + 1 ==>
      Expire(c, n).completed && !Expire(c, n).success &&
      |Expire(c, n).sent| == |c.sent| + MaxRetransmits + 1
  {
    CountUp(c, n, 0);
  }

  lemma {:induction false} CountUp(c: Conn, n: nat, k: nat)
    requires !c.completed && c.retransmitsThisBlock == k <= MaxRetransmits + 1
    ensures k + n <= MaxRetransmits + 1 ==>
      !Expire(c, n).completed && |Expire(c, n).sent| == |c.sent| + n &&
      Expire(c, n).retransmitsThisBlock == k + n
    ensures k + n > MaxRetransmits + 1 ==>
      Expire(c, n).completed && !Expire(c, n).success &&
      |Expire(c, n).sent| == |c.sent| + MaxRetransmits + 1 - k
    decreases n
  {
    if n > 0 {
      if k <= MaxRetransmits {
        CountUp(OnTimer(c), n - 1, k + 1);
      } else {
        StaysCompleted(OnTimer(c), n - 1);
      }
    }
  }

  /** Once the transfer is completed, further expiries change nothing: below
      the ceiling the completed test returns, at the ceiling the transfer is
      already marked failed. */
  lemma {:induction false} StaysCompleted(c: Conn, n: nat)
    requires c.completed && (c.retransmitsThisBlock > MaxRetransmits ==> !c.success)
    ensures Expire(c, n) == c
    decreases n
  {
    if n > 0 {
      assert OnTimer(c) == c;
      StaysCompleted(c, n - 1);
    }
  }

  // ---------------------------------------------------------------------------
  // Data blocks

  /** The expected block is the next one, and after 65535 the rollover value. */
  lemma ExpectedBlockWraps(last: U16, rollover: U16)
    ensures last < 0xffff ==> ExpectedBlock(last, rollover) == last + 1
    ensures last == 0xffff ==> ExpectedBlock(last, rollover) == rollover
  {
  }

  /** `Accept` touches only the writes, the byte count and the two flags. */
  lemma AcceptFields(c: Conn, data: seq<Byte>, writeOk: bool)
    ensures var r := Accept(c, data, writeOk);
      r == c.(writes := r.writes, bytesReceived := r.bytesReceived,
              completed := r.completed, success := r.success) &&
      r.writes == (if |data| > 0 then c.writes + [data] else c.writes) &&
      r.bytesReceived == c.bytesReceived + |data| &&
      r.completed == (c.completed || (|data| > 0 && !writeOk) || |data| < c.opts.blockSize) &&
      (r.success <==> (if |data| > 0 && !writeOk then false
                       else if !c.completed && |data| < c.opts.blockSize then true
                       else c.success))
  {
  }

  /** A block with the expected number is accepted: it becomes the last block,
      the per-block counter restarts, and its data (if any) is written and
      counted even when the write fails. A block with any other number changes
      nothing but what the window rule sends. The timer is rearmed to 250 ms
      either way. */
  lemma DataBlock(c: Conn, msg: seq<Byte>, writeOk: bool)
    requires |msg| >= 4
    ensures var r := OnData(c, msg, writeOk);
      var data := msg[4..];
      r.timer == 50 &&
      (BlockNumber(msg) == ExpectedBlock(c.lastBlock, c.opts.rollover) ==>
        r.lastBlock == BlockNumber(msg) && r.retransmitsThisBlock == 0 &&
        r.writes == (if |data| > 0 then c.writes + [data] else c.writes) &&
        r.bytesReceived == c.bytesReceived + |data|) &&
      (BlockNumber(msg) != ExpectedBlock(c.lastBlock, c.opts.rollover) ==>
        r.lastBlock == c.lastBlock && r.retransmitsThisBlock == c.retransmitsThisBlock &&
        r.writes == c.writes && r.bytesReceived == c.bytesReceived &&
        r.completed == c.completed && r.success == c.success)
  {
    Q40Timer.EngineTimeouts();
    if BlockNumber(msg) == ExpectedBlock(c.lastBlock, c.opts.rollover) {
      AcceptFields(c.(lastBlock := BlockNumber(msg), retransmitsThisBlock := 0), msg[4..], writeOk);
    }
  }

  /** A data message changes only the block counters, the per-block
      retransmit count, the write log and byte count, the flags, the timer and
      the datagrams sent. */
  lemma OnDataFrame(c: Conn, msg: seq<Byte>, writeOk: bool)
    requires |msg| >= 4
    ensures var r := OnData(c, msg, writeOk);
      r.filename == c.filename && r.opts == c.opts && r.started == c.started &&
      r.retransmitsTotal == c.retransmitsTotal && r.remotePort == c.remotePort &&
      r.freed == c.freed
  {
    if BlockNumber(msg) == ExpectedBlock(c.lastBlock, c.opts.rollover) {
      AcceptFields(c.(lastBlock := BlockNumber(msg), retransmitsThisBlock := 0), msg[4..], writeOk);
    }
  }

  /** How an accepted block ends the transfer: a failed write of a non-empty
      block fails it; otherwise a block shorter than the block size completes
      it successfully; a full block leaves the flags as they were. */
  lemma DataBlockCompletion(c: Conn, msg: seq<Byte>, writeOk: bool)
    requires |msg| >= 4 && BlockNumber(msg) == ExpectedBlock(c.lastBlock, c.opts.rollover)
    requires !c.completed
    ensures var r := OnData(c, msg, writeOk);
      var size := |msg| - 4;
      (size > 0 && !writeOk ==> r.completed && !r.success) &&
      ((size == 0 || writeOk) && size < c.opts.blockSize ==> r.completed && r.success) &&
      ((size == 0 || writeOk) && size >= c.opts.blockSize ==> !r.completed && r.success == c.success)
  {
  }

  /** The window rule: after a data message an ACK of the last block goes out,
      and becomes the last acknowledged, exactly when the last block has reached
      the last acknowledged plus the window size; no other datagram is sent. */
  lemma WindowAck(c: Conn, msg: seq<Byte>, writeOk: bool)
    requires |msg| >= 4
    ensures var r := OnData(c, msg, writeOk);
      (r.lastBlock >= c.lastAck + c.opts.windowSize ==>
        r.sent == c.sent + [Datagram(SinkPeer, AckMessage(r.lastBlock))] && r.lastAck == r.lastBlock) &&
      (r.lastBlock < c.lastAck + c.opts.windowSize ==> r.sent == c.sent && r.lastAck == c.lastAck)
  {
    TakeBlockFields(c, msg, writeOk);
  }

  /** The block check touches only the block counter, the per-block count and
      what `Accept` touches. */
  lemma TakeBlockFields(c: Conn, msg: seq<Byte>, writeOk: bool)
    requires |msg| >= 4
    ensures var t := TakeBlock(c, msg, writeOk);
      t == c.(lastBlock := t.lastBlock, retransmitsThisBlock := t.retransmitsThisBlock,
              writes := t.writes, bytesReceived := t.bytesReceived,
              completed := t.completed, success := t.success)
  {
    if BlockNumber(msg) == ExpectedBlock(c.lastBlock, c.opts.rollover) {
      AcceptFields(c.(lastBlock := BlockNumber(msg), retransmitsThisBlock := 0), msg[4..], writeOk);
    }
  }

  /** One full block after the last one, written successfully: it becomes the
      last block, the transfer goes on, and the window rule decides the ACK. */
  lemma FullBlockStep(c: Conn)
    requires !c.completed && c.lastBlock < 0xffff
    ensures var r := OnData(c, FullBlock(c.lastBlock + 1, c.opts.blockSize), true);
      r.lastBlock == c.lastBlock + 1 && !r.completed && r.opts == c.opts &&
      (r.lastBlock >= c.lastAck + c.opts.windowSize ==>
        r.sent == c.sent + [Datagram(SinkPeer, AckMessage(r.lastBlock))] && r.lastAck == r.lastBlock) &&
      (r.lastBlock < c.lastAck + c.opts.windowSize ==> r.sent == c.sent && r.lastAck == c.lastAck)
  {
    var msg := FullBlock(c.lastBlock + 1, c.opts.blockSize);
    ExpectedBlockWraps(c.lastBlock, c.opts.rollover);
    assert |msg[4..]| == c.opts.blockSize;
    AcceptFields(c.(lastBlock := c.lastBlock + 1, retransmitsThisBlock := 0), msg[4..], true);
    TakeBlockFields(c, msg, true);
    WindowAck(c, msg, true);
  }

  /** A full-size DATA message carrying block `n`. */
  function FullBlock(n: U16, size: nat): (m: seq<Byte>)
    ensures |m| == size + 4 && BlockNumber(m) == n
  {
    BigEndian16(OpData) + BigEndian16(n) + seq(size, _ => 0x55)
  }

  /** `n` full blocks in sequence after `c.lastBlock`, all written successfully. */
  function Stream(c: Conn, n: nat): Conn
    requires c.lastBlock + n <= 0xffff
    decreases n
  {
    if n == 0 then c
    else
      var c1 := OnData(c, FullBlock(c.lastBlock + 1, c.opts.blockSize), true);
      if c1.lastBlock + (n - 1) <= 0xffff then Stream(c1, n - 1) else c1
  }

  /** With window `w` and nothing unacknowledged, full blocks are taken in
      without any ACK until the `w`-th, which is acknowledged with a single ACK.
      With window 4 and last ACK 0, the first ACK is for block 4. */
  lemma {:induction false} FirstAckAtWindow(c: Conn, n: nat)
    requires c.lastAck == c.lastBlock && c.opts.windowSize >= 1 && !c.completed
    requires n <= c.opts.windowSize && c.lastBlock + n <= 0xffff
    ensures var r := Stream(c, n);
      r.lastBlock == c.lastBlock + n && !r.completed &&
      (n < c.opts.windowSize ==> r.sent == c.sent && r.lastAck == c.lastAck) &&
      (n == c.opts.windowSize ==>
        r.sent == c.sent + [Datagram(SinkPeer, AckMessage(c.lastBlock + n))] &&
        r.lastAck == c.lastBlock + n)
  {
    StreamWithin(c, n, 0);
  }

  lemma {:induction false} StreamWithin(c: Conn, n: nat, k: nat)
    requires c.lastAck + k == c.lastBlock && k < c.opts.windowSize && !c.completed
    requires k + n <= c.opts.windowSize && c.lastBlock + n <= 0xffff
    ensures StreamFacts(c, Stream(c, n), n, k)
    decreases n
  {
    if n > 0 {
      FullBlockStep(c);
      var c1 := OnData(c, FullBlock(c.lastBlock + 1, c.opts.blockSize), true);
      if k + 1 < c.opts.windowSize {
        assert Stream(c, n) == Stream(c1, n - 1);
        StreamWithin(c1, n - 1, k + 1);
        StreamChain(c, c1, Stream(c1, n - 1), n, k);
      } else {
        assert Stream(c, n) == c1;
      }
    }
  }

  /** What `n` full blocks after `k` unacknowledged ones lead to. */
  predicate StreamFacts(c: Conn, r: Conn, n: nat, k: nat) {
    r.lastBlock == c.lastBlock + n && !r.completed && r.opts == c.opts &&
    (k + n < c.opts.windowSize ==> r.sent == c.sent && r.lastAck == c.lastAck) &&
    (k + n == c.opts.windowSize ==>
      r.sent == c.sent + [Datagram(SinkPeer, AckMessage(c.lastBlock + n))] &&
      r.lastAck == c.lastBlock + n)
  }

  /** One block below the window followed by `n - 1` more. */
  lemma StreamChain(c: Conn, c1: Conn, r: Conn, n: nat, k: nat)
    requires n > 0 && c.lastAck + k == c.lastBlock && k + 1 < c.opts.windowSize
    requires c1.lastBlock == c.lastBlock + 1 && c1.opts == c.opts
    requires c1.sent == c.sent && c1.lastAck == c.lastAck
    requires StreamFacts(c1, r, n - 1, k + 1)
    ensures StreamFacts(c, r, n, k)
  {
  }

  /** The example of a window of 4 starting from block 0. */
  lemma WindowOfFour(c: Conn)
    requires c.lastAck == 0 && c.lastBlock == 0 && c.opts.windowSize == 4 && !c.completed
    ensures Stream(c, 3).sent == c.sent
    ensures Stream(c, 4).sent == c.sent + [Datagram(SinkPeer, AckMessage(4))]
    ensures Stream(c, 4).lastAck == 4
  {
    FirstAckAtWindow(c, 3);
    FirstAckAtWindow(c, 4);
  }

  /** Block numbers wrap past 65535 to the rollover value: with the rollover
      value 0, block 0 is accepted after block 65535. */
  lemma RolloverAccepted(c: Conn, msg: seq<Byte>, writeOk: bool)
    requires c.lastBlock == 0xffff && c.opts.rollover == 0
    requires |msg| >= 4 && BlockNumber(msg) == 0
    ensures OnData(c, msg, writeOk).lastBlock == 0
    ensures OnData(c, msg, writeOk).retransmitsThisBlock == 0
  {
    assert ExpectedBlock(c.lastBlock, c.opts.rollover) == 0;
    AcceptFields(c.(lastBlock := 0, retransmitsThisBlock := 0), msg[4..], writeOk);
  }

  /** The window test is done in `int` without wrapping: once the last ACK plus
      the window size passes 65535 no data message can trigger an ACK, so after
      block numbers wrap around only a timer expiry or an OACK acknowledges. In
      particular the last acknowledged block can then exceed the last accepted
      one: with window 8, last ACK 65528 and rollover 0, accepting block 0
      after 65535 sends nothing. */
  lemma WindowStallsAfterWrap(c: Conn, msg: seq<Byte>, writeOk: bool)
    requires |msg| >= 4 && c.lastAck + c.opts.windowSize > 0xffff
    ensures OnData(c, msg, writeOk).sent == c.sent
    ensures c.lastAck > 0 && c.lastBlock == 0xffff && c.opts.rollover == 0 && BlockNumber(msg) == 0 ==>
      OnData(c, msg, writeOk).lastBlock < OnData(c, msg, writeOk).lastAck
  {
    if BlockNumber(msg) == ExpectedBlock(c.lastBlock, c.opts.rollover) {
      AcceptFields(c.(lastBlock := BlockNumber(msg), retransmitsThisBlock := 0), msg[4..], writeOk);
    }
  }

  /** The last block of a transfer is acknowledged only when it lands on the
      window boundary. A short block the window test does not reach completes
      the transfer without an ACK, and since a completed transfer ignores its
      timer, no later expiry sends one either. */
  lemma FinalBlockUnacknowledged(c: Conn, msg: seq<Byte>, writeOk: bool, n: nat)
    requires |msg| >= 4 && !c.completed
    requires BlockNumber(msg) == ExpectedBlock(c.lastBlock, c.opts.rollover)
    requires |msg| - 4 < c.opts.blockSize
    requires BlockNumber(msg) < c.lastAck + c.opts.windowSize
    ensures var r := OnData(c, msg, writeOk);
      r.completed && r.success == (|msg| == 4 || writeOk) &&
      r.lastBlock == BlockNumber(msg) && r.sent == c.sent && Expire(r, n) == r
  {
    var r := OnData(c, msg, writeOk);
    TakeBlockFields(c, msg, writeOk);
    AcceptFields(c.(lastBlock := BlockNumber(msg), retransmitsThisBlock := 0), msg[4..], writeOk);
    StaysCompleted(r, n);
  }

  // ---------------------------------------------------------------------------
  // Options acknowledgement

  /** After an OACK: last block and last ACK are 0, one ACK of block 0 is sent,
      the timer is armed for 250 ms, and the retransmit counters and flags are
      as they were. */
  lemma OptionsAckEffects(c: Conn, msg: seq<Byte>)
    requires |msg| >= 2
    ensures var r := OnOptionsAck(c, msg);
      r.lastBlock == 0 && r.lastAck == 0 && r.timer == 50 &&
      r.sent == c.sent + [Datagram(SinkPeer, AckMessage(0))] &&
      r.retransmitsThisBlock == c.retransmitsThisBlock &&
      r.retransmitsTotal == c.retransmitsTotal &&
      r.completed == c.completed && r.success == c.success &&
      r.bytesReceived == c.bytesReceived && r.writes == c.writes
  {
    Q40Timer.EngineTimeouts();
  }

  /** Keys other than the four recognised ones leave every field alone. */
  lemma {:induction false} UnknownOptionsIgnored(o: Options, pairs: seq<OptionPair>)
    requires forall k :: 0 <= k < |pairs| ==> !Recognised(pairs[k].key)
    ensures ApplyOptions(o, pairs) == o
    decreases |pairs|
  {
    if pairs != [] {
      assert ApplyOption(o, pairs[0]) == o;
      UnknownOptionsIgnored(o, pairs[1..]);
    }
  }

  predicate Recognised(key: seq<Byte>) {
    key == RolloverKey || key == TsizeKey || key == BlksizeKey || key == WindowsizeKey
  }

  /** The OACK "blksize\0" "256\0" "windowsize\0" "2\0" sets the block size to
      256 and the window to 2 and is answered with ACK 0. */
  lemma OptionsAckExample(c: Conn)
    ensures var blk := OptionPair(BlksizeKey, Decimal(256));
      var win := OptionPair(WindowsizeKey, Decimal(2));
      var r := OnOptionsAck(c, BigEndian16(OpOptionsAck) + EncodeOptions([blk, win]));
      r.opts == c.opts.(blockSize := 256, windowSize := 2) &&
      r.sent == c.sent + [Datagram(SinkPeer, AckMessage(0))]
  {
    var blk := OptionPair(BlksizeKey, Decimal(256));
    var win := OptionPair(WindowsizeKey, Decimal(2));
    var payload := EncodeOptions([blk, win]);
    var msg := BigEndian16(OpOptionsAck) + payload;
    assert msg == BigEndian16(OpOptionsAck) + payload + [];
    ParseEncodeOptions(BigEndian16(OpOptionsAck), [blk, win], []);
    ApplyBlockAndWindow(c.opts);
    OptionsAckEffects(c, msg);
  }

  lemma ApplyBlockAndWindow(o: Options)
    ensures ApplyOptions(o, [OptionPair(BlksizeKey, Decimal(256)), OptionPair(WindowsizeKey, Decimal(2))])
      == o.(blockSize := 256, windowSize := 2)
  {
    var blk := OptionPair(BlksizeKey, Decimal(256));
    var win := OptionPair(WindowsizeKey, Decimal(2));
    AtoiDecimal(256, []);
    AtoiDecimal(2, []);
    assert Decimal(256) + [] == Decimal(256);
    assert Decimal(2) + [] == Decimal(2);
    var o1 := ApplyOption(o, blk);
    assert o1 == o.(blockSize := 256);
    assert ApplyOption(o1, win) == o.(blockSize := 256, windowSize := 2);
    assert [blk, win][1..] == [win];
    assert [win][1..] == [];
    assert ApplyOptions(o1, [win]) == ApplyOptions(ApplyOption(o1, win), []);
  }

  // ---------------------------------------------------------------------------
  // Packet dispatch

  /** The first packet of a transfer not yet started locks the sink on to its
      source port and starts the transfer; later packets leave the port alone.
      An ERROR or any opcode other than OACK and DATA fails the transfer. The
      packet is freed exactly once. */
  lemma PacketDispatch(c: Conn, p: Packet, writeOk: bool)
    requires Readable(p)
    ensures var r := OnPacket(c, p, writeOk);
      r.started &&
      r.remotePort == (if c.started then c.remotePort else p.sourcePort) &&
      r.freed == c.freed + [p] &&
      (Opcode(p.data) != OpOptionsAck && Opcode(p.data) != OpData ==>
        r.completed && !r.success && r.sent == c.sent)
  {
    var c1 := if !c.started then c.(remotePort := p.sourcePort, started := true) else c;
    if Opcode(p.data) == OpData {
      OnDataFrame(c1, p.data, writeOk);
    }
  }

  // ---------------------------------------------------------------------------
  // Start-up

  /** Starting a fresh transfer sends exactly the read request, to port 69,
      arms the 1000 ms timer and leaves both counters at 0. */
  lemma StartSendsRequest(filename: seq<Byte>)
    ensures var r := Start(Initial(filename));
      r.sent == [Datagram(ServerPort(TftpPort), RrqMessage(filename))] &&
      r.timer == 200 && r.retransmitsThisBlock == 0 && r.retransmitsTotal == 0 &&
      !r.started && !r.completed && r.opts.blockSize == 512 && r.opts.windowSize == 1 && Inv(r)
  {
    Q40Timer.EngineTimeouts();
  }

  // ---------------------------------------------------------------------------
  // Throughput report

  const TwoTo32: int := 0x1_0000_0000

  /** The elapsed time in tenths of a second between two readings of the
      32-bit tick counter: the unsigned difference divided by `TIMER_HZ / 10`,
      and at least 1 so that it can divide. */
  function ElapsedTenths(start: int, now: int): (t: int)
    requires 0 <= start < TwoTo32 && 0 <= now < TwoTo32
    ensures t >= 1
  {
    var taken := ((now - start) % TwoTo32) / (Q40Timer.TimerHz / 10);
    if taken == 0 then 1 else taken
  }

  /** The rate in tenths of KiB per second, `((bytes / taken) * 100) >> 10` in
      32-bit unsigned arithmetic. */
  function RateTenthsKiB(bytes: int, taken: int): int
    requires 0 <= bytes < TwoTo32 && taken >= 1
  {
    (((bytes / taken) * 100) % TwoTo32) / 1024
  }

  /** Without a wrap of the tick counter, the elapsed time is the tick count in
      twentieths, rounded down, once at least one tenth of a second passed. */
  lemma ElapsedWithoutWrap(start: int, now: int)
    requires 0 <= start <= now < TwoTo32 && now - start >= 20
    ensures 20 * ElapsedTenths(start, now) <= now - start < 20 * ElapsedTenths(start, now) + 20
  {
  }

  /** When the multiplication does not overflow, the rate is bytes per tenth of
      a second times 100 in KiB, rounded down: tenths of KiB per second. */
  lemma RateRoundsDown(bytes: int, taken: int)
    requires 0 <= bytes < TwoTo32 && taken >= 1 && (bytes / taken) * 100 < TwoTo32
    ensures 1024 * RateTenthsKiB(bytes, taken) <= (bytes / taken) * 100
    ensures (bytes / taken) * 100 < 1024 * RateTenthsKiB(bytes, taken) + 1024
  {
    var q := bytes / taken;
    QuotientNonNegative(bytes, taken);
    var m := q * 100;
    assert 0 <= m < TwoTo32;
    assert m % TwoTo32 == m;
    assert RateTenthsKiB(bytes, taken) == m / 1024;
  }

  lemma QuotientNonNegative(a: int, b: int)
    requires a >= 0 && b >= 1
    ensures a / b >= 0
  {
  }
}
