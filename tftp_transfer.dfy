/** The transfer record and its packet sink as objects whose fields the
    callbacks of the TFTP client update in place. Every handler is proved to
    do to the objects exactly what the matching function of TftpEngine says,
    and to keep the engine's invariant. Calls into the network layer and the
    file system are recorded, not made: datagrams handed to `net_tx`, buffers
    handed to `f_write` and packets freed are kept in ghost logs, and the
    result of a write is a parameter. */
module TftpTransfer {
  import opened TftpWire
  import opened TftpEngine
  import Q40Timer

  const IpProtoUdp: int := 17
  /** Local ports are drawn from 8192 upwards, 15 bits of the tick counter. */
  const LocalPortBase: int := 8192

  /** The packet sink a transfer registers: its match rules and its timer. */
  class Sink {
    /** Duration in ticks the timer was last armed with. */
    var timer: int
    /** Remote port to match: 0 until the server's first reply is seen. */
    var matchRemotePort: U16
    const matchRemoteIp: int
    const matchLocalPort: int
    const matchProtocol: int

    constructor (remoteIp: int, localPort: int)
      ensures timer == 0 && matchRemotePort == 0
      ensures matchRemoteIp == remoteIp && matchLocalPort == localPort
      ensures matchProtocol == IpProtoUdp
    {
      timer := 0;
      matchRemotePort := 0;
      matchRemoteIp := remoteIp;
      matchLocalPort := localPort;
      matchProtocol := IpProtoUdp;
    }
  }

  /** `tftp_transfer_t` together with the sink that carries it. */
  class Transfer {
    const sink: Sink
    const tftpFilename: seq<Byte>
    const diskFilename: seq<Byte>
    var blockSize: U16
    var lastBlock: U16
    var lastAck: U16
    var rolloverValue: U16
    var bytesReceived: int
    var totalSize: int
    var windowSize: int
    var started: bool
    var completed: bool
    var success: bool
    var retransmitsThisBlock: int
    var retransmitsTotal: int

    /** Datagrams handed to `net_tx`, in order. */
    ghost var sent: seq<Datagram>
    /** Buffers handed to `f_write`, in order. */
    ghost var writes: seq<seq<Byte>>
    /** Packets handed to `packet_free`, in order. */
    ghost var freed: seq<Packet>

    function Negotiated(): Options
      reads this
    {
      Options(blockSize, windowSize, rolloverValue, totalSize)
    }

    /** The state of the record, the sink and the logs as one value. */
    ghost function Model(): Conn
      reads this, sink
    {
      Conn(tftpFilename, Negotiated(), lastBlock, lastAck, bytesReceived,
           started, completed, success, retransmitsThisBlock, retransmitsTotal,
           sink.timer, sink.matchRemotePort, sent, writes, freed)
    }

    ghost predicate Valid()
      reads this, sink
    {
      Inv(Model())
    }

    /** The set-up part of `tftp_receive`: a zeroed record with block size 512
        and window 1, and a sink that matches UDP from the server to a local
        port of 8192 plus the low 15 bits of the tick counter. */
    constructor Init(serverIp: int, filename: seq<Byte>, diskName: seq<Byte>, ticks: int)
      requires 0 <= ticks < TwoTo32
      ensures Valid() && Model() == Initial(filename) && fresh(sink)
      ensures sink.matchRemoteIp == serverIp && sink.matchProtocol == IpProtoUdp
      ensures sink.matchLocalPort == LocalPortBase + ticks % 0x8000
      ensures 8192 <= sink.matchLocalPort <= 40959
      ensures diskFilename == diskName
    {
      sink := new Sink(serverIp, LocalPortBase + ticks % 0x8000);
      tftpFilename := filename;
      diskFilename := diskName;
      blockSize := DefaultBlockSize;
      windowSize := DefaultWindowSize;
      lastBlock, lastAck, rolloverValue := 0, 0, 0;
      bytesReceived, totalSize := 0, 0;
      started, completed, success := false, false, false;
      retransmitsThisBlock, retransmitsTotal := 0, 0;
      sent, writes, freed := [], [], [];
    }

    /** `net_tx`: the datagram leaves; only the log records it. */
    method Transmit(d: Datagram)
      modifies this`sent
      ensures sent == old(sent) + [d]
    {
      sent := sent + [d];
    }

    /** `tftp_create_rrq`: the filename, "octet" and the four option pairs
        appended to a 1400-byte buffer, behind opcode 1, for port 69. */
    method CreateRrq() returns (d: Datagram)
      ensures d == Datagram(ServerPort(TftpPort), RrqMessage(tftpFilename))
    {
      var options := new Byte[MaxOpt];
      var offset := 0;
      offset := OptionsAppend(options, offset, tftpFilename);
      offset := OptionsAppend(options, offset, Octet);
      offset := OptionsAppend(options, offset, RolloverKey);
      offset := OptionsAppend(options, offset, ZeroText);
      offset := OptionsAppend(options, offset, TsizeKey);
      offset := OptionsAppend(options, offset, ZeroText);
      offset := OptionsAppend(options, offset, BlksizeKey);
      offset := OptionsAppend(options, offset, BlockSizeText);
      offset := OptionsAppend(options, offset, WindowsizeKey);
      offset := OptionsAppend(options, offset, WindowText);
      d := Datagram(ServerPort(TftpPort), BigEndian16(OpRrq) + options[..offset]);
    }

    /** `tftp_create_ack`: an ACK of the last block, which becomes the last
        block acknowledged; nothing else changes. */
    method CreateAck() returns (d: Datagram)
      modifies this`lastAck
      ensures d == Datagram(SinkPeer, AckMessage(lastBlock))
      ensures lastAck == lastBlock
      ensures Model() == old(Model()).(lastAck := old(lastBlock))
    {
      d := Datagram(SinkPeer, AckMessage(lastBlock));
      lastAck := lastBlock;
    }

    /** `tftp_timer_expired`. */
    method TimerExpired()
      requires Valid()
      modifies this, sink
      ensures Valid() && Model() == OnTimer(old(Model()))
    {
      OnTimerInv(Model());
      if retransmitsThisBlock > MaxRetransmits {
        completed := true;
        success := false;
        return;
      }
      if completed {
        return;
      }
      Resend();
    }

    /** The retransmission of `tftp_timer_expired`. */
    method Resend()
      modifies this, sink
      ensures Model() == TftpEngine.Resend(old(Model()))
    {
      if !started {
        sink.timer := Q40Timer.SetTimerMs(RrqTimeoutMs);
        var rrq := CreateRrq();
        Transmit(rrq);
      } else {
        sink.timer := Q40Timer.SetTimerMs(DataTimeoutMs);
        var ack := CreateAck();
        Transmit(ack);
      }
      retransmitsThisBlock := retransmitsThisBlock + 1;
      retransmitsTotal := retransmitsTotal + 1;
    }

    /** The option loop of `tftp_process_options_ack`: walks the (option,
        value) strings of the payload behind the opcode, stopping at the first
        one without a NUL before the end, and sets the field of each
        recognised option. */
    method ReadOptions(msg: seq<Byte>)
      requires |msg| >= 2
      modifies this`rolloverValue, this`totalSize, this`blockSize, this`windowSize
      ensures Negotiated() == ApplyOptions(old(Negotiated()), ParseOptions(msg, 2))
    {
      ghost var goal := ApplyOptions(Negotiated(), ParseOptions(msg, 2));
      var ptr := 2;
      var end := |msg|;
      while true
        invariant 2 <= ptr <= end
        invariant ApplyOptions(Negotiated(), ParseOptions(msg, ptr)) == goal
        decreases end - ptr
      {
        // the option
        var optEnd := SkipString(msg, ptr);
        if optEnd >= end {
          ParseOptionsEnd(msg, ptr, optEnd);
          break;
        }
        // its value
        var valEnd := SkipString(msg, optEnd + 1);
        if valEnd >= end {
          ParseOptionsEnd(msg, ptr, optEnd);
          break;
        }
        // process the option and its value
        ghost var o := Negotiated();
        ghost var pair := OptionPair(msg[ptr..optEnd], msg[optEnd + 1..valEnd]);
        ApplyParsedStep(o, msg, ptr, optEnd, valEnd, pair, valEnd + 1);
        SetOption(msg[ptr..optEnd], msg[optEnd + 1..valEnd]);
        assert ApplyOptions(Negotiated(), ParseOptions(msg, valEnd + 1)) == goal;
        ptr := valEnd + 1;
      }
    }

    /** `tftp_process_options_ack`: applies the options of the payload, then
        agrees to them with an ACK of block 0 and arms the data timeout. */
    method ProcessOptionsAck(msg: seq<Byte>)
      requires Valid() && |msg| >= 2
      modifies this, sink
      ensures Valid() && Model() == OnOptionsAck(old(Model()), msg)
    {
      OnOptionsAckInv(Model(), msg);
      ghost var c0 := Model();
      ReadOptions(msg);
      // an ACK of block 0 agrees to the options
      lastBlock := 0;
      ghost var c1 := Model();
      assert c1 == c0.(opts := ApplyOptions(c0.opts, ParseOptions(msg, 2)), lastBlock := 0);
      var ack := CreateAck();
      Transmit(ack);
      assert Model() == SendAck(c1);
      sink.timer := Q40Timer.SetTimerMs(DataTimeoutMs);
    }

    /** The scan of `tftp_process_options_ack` over one string: from `from`,
        forward to the first NUL, or to the end of the payload. */
    static method SkipString(msg: seq<Byte>, from: int) returns (ptr: int)
      requires 0 <= from <= |msg|
      ensures ptr == NulFrom(msg, from)
    {
      ptr := from;
      while ptr < |msg| && msg[ptr] != 0
        invariant from <= ptr <= |msg|
        invariant NulFrom(msg, ptr) == NulFrom(msg, from)
      {
        ptr := ptr + 1;
      }
    }

    /** The body of the option loop of `tftp_process_options_ack`: a recognised
        option sets its field to the value read by `atoi`, the rollover value
        and the block size truncated to 16 bits; any other option is ignored. */
    method SetOption(key: seq<Byte>, value: seq<Byte>)
      modifies this`rolloverValue, this`totalSize, this`blockSize, this`windowSize
      ensures Negotiated() == ApplyOption(old(Negotiated()), OptionPair(key, value))
    {
      var valInt := Atoi(value);
      if key == RolloverKey {
        rolloverValue := valInt % 0x1_0000;
      } else if key == TsizeKey {
        totalSize := valInt;
      } else if key == BlksizeKey {
        blockSize := valInt % 0x1_0000;
      } else if key == WindowsizeKey {
        windowSize := valInt;
      }
    }

    /** `f_write`: the buffer goes to the file; only the log records it. */
    method WriteFile(data: seq<Byte>)
      modifies this`writes
      ensures writes == old(writes) + [data]
    {
      writes := writes + [data];
    }

    /** The branch of `tftp_process_data` taken for the expected block: the data
        (if any) goes to the file and is counted, a failed write fails the
        transfer, and a block shorter than the block size completes it. */
    method AcceptBlock(data: seq<Byte>, writeOk: bool)
      modifies this`writes, this`bytesReceived, this`completed, this`success
      ensures Model() == Accept(old(Model()), data, writeOk)
    {
      AcceptFields(Model(), data, writeOk);
      var size := |data|;
      if size > 0 {
        WriteFile(data);
        bytesReceived := bytesReceived + size;
        if !writeOk {
          completed := true;
          success := false;
        }
      }
      if !completed && size < blockSize {
        // a short data block ends the transfer
        completed := true;
        success := true;
      }
    }

    /** The block check of `tftp_process_data`: only the block after the last
        one, or the rollover value after 65535, is taken. */
    method TakeDataBlock(msg: seq<Byte>, writeOk: bool)
      requires |msg| >= 4
      modifies this`lastBlock, this`retransmitsThisBlock, this`writes, this`bytesReceived,
        this`completed, this`success
      ensures Model() == TakeBlock(old(Model()), msg, writeOk)
    {
      var rxblock := ReadBigEndian16(msg[2], msg[3]);
      var expectedBlock := (lastBlock + 1) % 0x1_0000;
      if expectedBlock == 0 {
        expectedBlock := rolloverValue;
      }
      if rxblock == expectedBlock {
        lastBlock := rxblock;
        retransmitsThisBlock := 0;
        AcceptBlock(msg[4..], writeOk);
      }
    }

    /** `tftp_process_data`: the block check, then an ACK when the window is
        full, then the data timeout rearmed. */
    method ProcessData(msg: seq<Byte>, writeOk: bool)
      requires Valid() && |msg| >= 4
      modifies this, sink
      ensures Valid() && Model() == OnData(old(Model()), msg, writeOk)
    {
      OnDataInv(Model(), msg, writeOk);
      TakeDataBlock(msg, writeOk);
      ghost var c1 := Model();
      if lastBlock >= lastAck + windowSize {
        var ack := CreateAck();
        Transmit(ack);
      }
      assert Model() == AckWindow(c1);
      sink.timer := Q40Timer.SetTimerMs(DataTimeoutMs);
    }

    /** `packet_free`: only the log records it. */
    method PacketFree(p: Packet)
      modifies this`freed
      ensures freed == old(freed) + [p]
    {
      freed := freed + [p];
    }

    /** `tftp_packet_received`. */
    method PacketReceived(p: Packet, writeOk: bool)
      requires Valid() && Readable(p)
      modifies this, sink
      ensures Valid() && Model() == OnPacket(old(Model()), p, writeOk)
    {
      OnPacketInv(Model(), p, writeOk);
      if !started {
        // lock on to the server's source port
        sink.matchRemotePort := p.sourcePort;
        started := true;
      }
      Dispatch(p, writeOk);
      PacketFree(p);
    }

    /** The opcode switch of `tftp_packet_received`. */
    method Dispatch(p: Packet, writeOk: bool)
      requires Valid() && Readable(p)
      modifies this, sink
      ensures Valid() && Model() == TftpEngine.Dispatch(old(Model()), p, writeOk)
    {
      var opcode := ReadBigEndian16(p.data[0], p.data[1]);
      if opcode == OpOptionsAck {
        ProcessOptionsAck(p.data);
      } else if opcode == OpData {
        ProcessData(p.data, writeOk);
      } else if opcode == OpError {
        completed := true;
        success := false;
      } else {
        completed := true;
        success := false;
      }
    }

    /** The start of the transfer in `tftp_receive`: a synthesised timer
        expiry sends the read request, then both counters are reset. */
    method Start()
      requires Valid()
      modifies this, sink
      ensures Valid() && Model() == TftpEngine.Start(old(Model()))
    {
      TimerExpired();
      retransmitsTotal := 0;
      retransmitsThisBlock := 0;
    }
  }

  /** `tftp_receive` up to its wait loop: set up the transfer and, when the
      local file opened, start it by sending the read request. Whatever
      happens, the result is true. */
  method Receive(serverIp: int, filename: seq<Byte>, diskName: seq<Byte>, ticks: int, openOk: bool)
    returns (ok: bool, t: Transfer)
    requires 0 <= ticks < TwoTo32
    ensures ok
    ensures fresh(t) && fresh(t.sink) && t.Valid()
    ensures openOk ==> t.Model() == TftpEngine.Start(Initial(filename))
    ensures !openOk ==> t.Model() == Initial(filename)
  {
    t := new Transfer.Init(serverIp, filename, diskName, ticks);
    if openOk {
      t.Start();
    }
    ok := true;
  }
}
