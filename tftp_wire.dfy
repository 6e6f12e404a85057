/** Byte-level formats of the TFTP client: the read request with its option
    strings (RFC 1350 section 5, RFC 2347), the acknowledgement, the option
    acknowledgement's key/value list and the `atoi` conversion of its values.
    All multi-byte integers are big-endian on the wire. */
module TftpWire {

  type Byte = x: int | 0 <= x < 0x100
  type U16 = x: int | 0 <= x < 0x1_0000

  const OpRrq: U16 := 1
  const OpData: U16 := 3
  const OpAck: U16 := 4
  const OpError: U16 := 5
  const OpOptionsAck: U16 := 6

  /** Size of the stack buffer the request's strings are assembled in. */
  const MaxOpt: int := 1400

  /** The TFTP server's well-known port, the destination of every read request. */
  const TftpPort: U16 := 69

  // ---------------------------------------------------------------------------
  // Big-endian 16-bit integers

  function BigEndian16(v: U16): (b: seq<Byte>)
    ensures |b| == 2
  {
    [v / 0x100, v % 0x100]
  }

  function ReadBigEndian16(hi: Byte, lo: Byte): U16 {
    hi * 0x100 + lo
  }

  lemma BigEndian16RoundTrip(v: U16, hi: Byte, lo: Byte)
    ensures ReadBigEndian16(BigEndian16(v)[0], BigEndian16(v)[1]) == v
    ensures BigEndian16(ReadBigEndian16(hi, lo)) == [hi, lo]
  {
  }

  // ---------------------------------------------------------------------------
  // C strings

  /** A byte string that can be held in a NUL-terminated C string. */
  predicate NoNul(s: seq<Byte>) {
    forall i :: 0 <= i < |s| ==> s[i] != 0
  }

  /** The strings as they lie in memory one after the other, each with its
      terminating NUL. */
  function Join(strs: seq<seq<Byte>>): seq<Byte> {
    if strs == [] then [] else strs[0] + [0] + Join(strs[1..])
  }

  /** Joining two lists is joining each. */
  lemma {:induction false} JoinAppend(a: seq<seq<Byte>>, b: seq<seq<Byte>>)
    ensures Join(a + b) == Join(a) + Join(b)
  {
    if a != [] {
      assert (a + b)[1..] == a[1..] + b;
      JoinAppend(a[1..], b);
    } else {
      assert a + b == b;
    }
  }

  /** Index of the first NUL of `s`, or `|s|` when there is none. */
  function NulIndex(s: seq<Byte>): (i: nat)
    ensures i <= |s|
    ensures i < |s| ==> s[i] == 0
    ensures NoNul(s[..i])
  {
    if s == [] then 0
    else if s[0] == 0 then 0
    else
      var j := NulIndex(s[1..]);
      assert s[..j + 1] == [s[0]] + s[1..][..j];
      j + 1
  }

  /** Index of the first NUL of `msg` at or after `i`, or `|msg|` when there is
      none: the scan of a C string that starts at offset `i` of a buffer. */
  function NulFrom(msg: seq<Byte>, i: nat): (j: nat)
    requires i <= |msg|
    ensures i <= j <= |msg|
    decreases |msg| - i
  {
    if i == |msg| || msg[i] == 0 then i else NulFrom(msg, i + 1)
  }

  /** The scan from `i` stops at the first NUL at or after `i`. */
  lemma {:induction false} NulFromAt(msg: seq<Byte>, i: nat, j: nat)
    requires i <= j <= |msg| && (j < |msg| ==> msg[j] == 0)
    requires forall t | i <= t < j :: msg[t] != 0
    ensures NulFrom(msg, i) == j
    decreases j - i
  {
    if i < j {
      NulFromAt(msg, i + 1, j);
    }
  }

  /** The first NUL found by a left-to-right scan is the one `NulIndex` names. */
  lemma {:induction false} NulIndexAt(s: seq<Byte>, i: nat)
    requires i <= |s| && NoNul(s[..i])
    requires i < |s| ==> s[i] == 0
    ensures NulIndex(s) == i
  {
    if s != [] && s[0] != 0 {
      assert s[1..][..i - 1] == s[..i][1..];
      NulIndexAt(s[1..], i - 1);
    }
  }

  /** Splits a buffer into its NUL-terminated strings; bytes after the last NUL
      (an unterminated string) are dropped. */
  function SplitStrings(s: seq<Byte>): seq<seq<Byte>>
    decreases |s|
  {
    var i := NulIndex(s);
    if i == |s| then [] else [s[..i]] + SplitStrings(s[i + 1..])
  }

  lemma {:induction false} SplitPrefix(a: seq<Byte>, rest: seq<Byte>)
    requires NoNul(a)
    ensures SplitStrings(a + [0] + rest) == [a] + SplitStrings(rest)
  {
    var s := a + [0] + rest;
    assert s[..|a|] == a;
    NulIndexAt(s, |a|);
    assert s[|a| + 1..] == rest;
  }

  /** Splitting undoes joining, for strings without NULs. */
  lemma {:induction false} SplitJoin(strs: seq<seq<Byte>>)
    requires forall k :: 0 <= k < |strs| ==> NoNul(strs[k])
    ensures SplitStrings(Join(strs)) == strs
  {
    if strs != [] {
      assert strs == [strs[0]] + strs[1..];
      SplitPrefix(strs[0], Join(strs[1..]));
      SplitJoin(strs[1..]);
    }
  }

  // ---------------------------------------------------------------------------
  // The read request

  /** The buffer prefix that `options_append` leaves valid when it adds `extra`
      to the valid prefix `prefix`: the string and its NUL are appended unless
      the new offset would reach `MAXOPT`, in which case the offset drops back
      to 0 and nothing is kept. */
  function AppendOption(prefix: seq<Byte>, extra: seq<Byte>): seq<Byte> {
    if |extra| + 1 + |prefix| >= MaxOpt then [] else prefix + extra + [0]
  }

  /** `options_append` applied to each string in turn. */
  function AppendAll(prefix: seq<Byte>, strs: seq<seq<Byte>>): seq<Byte>
    decreases |strs|
  {
    if strs == [] then prefix else AppendAll(AppendOption(prefix, strs[0]), strs[1..])
  }

  // The strings the client puts after the filename, as ASCII bytes.
  const Octet: seq<Byte> := [0x6f, 0x63, 0x74, 0x65, 0x74]                          // "octet"
  const RolloverKey: seq<Byte> := [0x72, 0x6f, 0x6c, 0x6c, 0x6f, 0x76, 0x65, 0x72]  // "rollover"
  const TsizeKey: seq<Byte> := [0x74, 0x73, 0x69, 0x7a, 0x65]                       // "tsize"
  const BlksizeKey: seq<Byte> := [0x62, 0x6c, 0x6b, 0x73, 0x69, 0x7a, 0x65]         // "blksize"
  const WindowsizeKey: seq<Byte> :=
    [0x77, 0x69, 0x6e, 0x64, 0x6f, 0x77, 0x73, 0x69, 0x7a, 0x65]                    // "windowsize"
  const ZeroText: seq<Byte> := [0x30]                                               // "0"
  const BlockSizeText: seq<Byte> := [0x31, 0x30, 0x32, 0x34]                        // "1024"
  const WindowText: seq<Byte> := [0x38]                                             // "8"

  /** The mode and the four option pairs the client requests:
      rollover=0, tsize=0, blksize=1024, windowsize=8. */
  const RequestTail: seq<seq<Byte>> := RequestHead + [WindowText]
  /** All of them but the final "8". */
  const RequestHead: seq<seq<Byte>> :=
    [Octet, RolloverKey, ZeroText, TsizeKey, ZeroText,
     BlksizeKey, BlockSizeText, WindowsizeKey]

  lemma RequestTailNoNul()
    ensures forall k :: 0 <= k < |RequestTail| ==> NoNul(RequestTail[k])
  {
  }

  /** `options_append`: copies `extra` and its NUL into the buffer at `offset`
      and returns the offset after it, unless that offset would reach `MAXOPT`;
      then it copies nothing and returns 0. */
  method OptionsAppend(options: array<Byte>, offset: int, extra: seq<Byte>) returns (next: int)
    requires options.Length == MaxOpt && 0 <= offset < MaxOpt
    modifies options
    ensures 0 <= next < MaxOpt
    ensures options[..next] == AppendOption(old(options[..offset]), extra)
    ensures next == 0 ==> options[..] == old(options[..])
    ensures next != 0 ==> options[..] == old(options[..offset]) + extra + [0] + old(options[next..])
  {
    var extraLen := |extra| + 1;
    if extraLen + offset >= MaxOpt {
      return 0;
    }
    forall i | offset <= i < offset + extraLen {
      options[i] := if i - offset < |extra| then extra[i - offset] else 0;
    }
    next := offset + extraLen;
    assert options[..next] == old(options[..offset]) + extra + [0];
    assert options[..] == options[..next] + options[next..];
  }

  /** The body of the read request built for `filename`: the valid prefix of
      the options buffer after the ten appends of `tftp_create_rrq`. */
  function RrqBody(filename: seq<Byte>): seq<Byte> {
    var f := AppendOption([], filename);
    var m := AppendOption(f, Octet);
    var r := AppendOption(AppendOption(m, RolloverKey), ZeroText);
    var t := AppendOption(AppendOption(r, TsizeKey), ZeroText);
    var b := AppendOption(AppendOption(t, BlksizeKey), BlockSizeText);
    AppendOption(AppendOption(b, WindowsizeKey), WindowText)
  }

  /** The read request: opcode 1, then the body. */
  function RrqMessage(filename: seq<Byte>): (m: seq<Byte>)
    ensures |m| == |RrqBody(filename)| + 2
  {
    BigEndian16(OpRrq) + RrqBody(filename)
  }

  /** `AppendAll` takes one string at a time. */
  lemma AppendAllStep(p: seq<Byte>, strs: seq<seq<Byte>>, k: nat)
    requires k < |strs|
    ensures AppendAll(p, strs[k..]) == AppendAll(AppendOption(p, strs[k]), strs[k + 1..])
  {
    assert strs[k..][1..] == strs[k + 1..];
  }

  lemma AppendAllCons(p: seq<Byte>, x: seq<Byte>, rest: seq<seq<Byte>>)
    ensures AppendAll(p, [x] + rest) == AppendAll(AppendOption(p, x), rest)
  {
    assert ([x] + rest)[1..] == rest;
  }

  /** The ten appends are `AppendAll` over the filename and the fixed strings. */
  lemma RrqBodyAll(filename: seq<Byte>)
    ensures RrqBody(filename) == AppendAll([], [filename] + RequestTail)
  {
    var s := [filename] + RequestTail;
    assert |s| == 10;
    var p0: seq<Byte> := [];
    AppendAllStep(p0, s, 0);
    var p1 := AppendOption(p0, s[0]);
    AppendAllStep(p1, s, 1);
    var p2 := AppendOption(p1, s[1]);
    AppendAllStep(p2, s, 2);
    var p3 := AppendOption(p2, s[2]);
    AppendAllStep(p3, s, 3);
    var p4 := AppendOption(p3, s[3]);
    AppendAllStep(p4, s, 4);
    var p5 := AppendOption(p4, s[4]);
    AppendAllStep(p5, s, 5);
    var p6 := AppendOption(p5, s[5]);
    AppendAllStep(p6, s, 6);
    var p7 := AppendOption(p6, s[6]);
    AppendAllStep(p7, s, 7);
    var p8 := AppendOption(p7, s[7]);
    AppendAllStep(p8, s, 8);
    var p9 := AppendOption(p8, s[8]);
    AppendAllStep(p9, s, 9);
    assert s[10..] == [];
  }

  /** While nothing overflows, the appends lay the strings out one after the
      other, each NUL-terminated. */
  lemma {:induction false} AppendAllJoin(prefix: seq<Byte>, strs: seq<seq<Byte>>)
    requires |prefix| + |Join(strs)| < MaxOpt
    ensures AppendAll(prefix, strs) == prefix + Join(strs)
    decreases |strs|
  {
    if strs != [] {
      var next := prefix + strs[0] + [0];
      assert AppendOption(prefix, strs[0]) == next;
      AppendAllJoin(next, strs[1..]);
      assert next + Join(strs[1..]) == prefix + Join(strs);
    }
  }

  /** The fixed part of the request takes 51 bytes, 49 without its final "8". */
  lemma RequestTailLength()
    ensures |Join(RequestTail)| == 51
    ensures |Join(RequestHead)| == 49
  {
    JoinLengthOfEight(Octet, RolloverKey, ZeroText, TsizeKey, ZeroText,
                      BlksizeKey, BlockSizeText, WindowsizeKey);
    JoinAppend(RequestHead, [WindowText]);
    assert [WindowText][1..] == [];
  }

  lemma JoinLengthOfEight(a: seq<Byte>, b: seq<Byte>, c: seq<Byte>, d: seq<Byte>,
                          e: seq<Byte>, f: seq<Byte>, g: seq<Byte>, h: seq<Byte>)
    ensures |Join([a, b, c, d, e, f, g, h])| == |a| + |b| + |c| + |d| + |e| + |f| + |g| + |h| + 8
  {
    var t := [a, b, c, d, e, f, g, h];
    JoinLength(t);
    LengthSumStep(t, 0);
    LengthSumStep(t, 1);
    LengthSumStep(t, 2);
    LengthSumStep(t, 3);
    LengthSumStep(t, 4);
    LengthSumStep(t, 5);
    LengthSumStep(t, 6);
    LengthSumStep(t, 7);
    assert t[8..] == [];
  }

  /** The bytes of the strings plus one NUL each. */
  function LengthSum(t: seq<seq<Byte>>): nat {
    if t == [] then 0 else |t[0]| + 1 + LengthSum(t[1..])
  }

  lemma {:induction false} JoinLength(t: seq<seq<Byte>>)
    ensures |Join(t)| == LengthSum(t)
  {
    if t != [] {
      JoinLength(t[1..]);
    }
  }

  lemma LengthSumStep(t: seq<seq<Byte>>, k: nat)
    requires k < |t|
    ensures LengthSum(t[k..]) == |t[k]| + 1 + LengthSum(t[k + 1..])
  {
    assert t[k..][1..] == t[k + 1..];
  }

  /** For a filename of at most 1347 bytes the request is opcode 1 followed by
      the filename, "octet" and the four option pairs, each NUL-terminated, in
      this order; its length is that of the strings plus their NULs plus 2. */
  lemma RrqLayout(filename: seq<Byte>)
    requires NoNul(filename) && |filename| <= 1347
    ensures RrqMessage(filename) == [0, 1] + Join([filename] + RequestTail)
    ensures SplitStrings(RrqMessage(filename)[2..]) == [filename] + RequestTail
    ensures |RrqMessage(filename)| == |filename| + 54
  {
    var strs := [filename] + RequestTail;
    RrqBodyJoin(filename);
    assert BigEndian16(OpRrq) == [0, 1];
    assert RrqMessage(filename) == [0, 1] + RrqBody(filename);
    assert RrqMessage(filename)[2..] == Join(strs);
    forall k | 0 <= k < |strs|
      ensures NoNul(strs[k])
    {
      if k > 0 {
        RequestTailNoNul();
        assert strs[k] == RequestTail[k - 1];
      }
    }
    SplitJoin(strs);
  }

  lemma RrqBodyJoin(filename: seq<Byte>)
    requires |filename| <= 1347
    ensures RrqBody(filename) == Join([filename] + RequestTail)
    ensures |RrqBody(filename)| == |filename| + 52
  {
    var strs := [filename] + RequestTail;
    assert strs[1..] == RequestTail;
    assert Join(strs) == filename + [0] + Join(RequestTail);
    RequestTailLength();
    AppendAllJoin([], strs);
    RrqBodyAll(filename);
  }

  /** A filename of 1348 bytes fits, but the final "8" would end the buffer at
      offset 1400: that append returns 0, and the request goes out as the bare
      opcode. */
  lemma RrqEmptyAt1348(filename: seq<Byte>)
    requires |filename| == 1348
    ensures RrqMessage(filename) == [0, 1]
  {
    var strs := [filename] + RequestTail;
    var head := [filename] + RequestHead;
    assert head[1..] == RequestHead;
    RequestTailLength();
    AppendAllJoin([], head);
    AppendAllSplit([], head, [WindowText]);
    assert head + [WindowText] == strs;
    RrqBodyAll(filename);
  }

  /** Appending a list in two parts is appending it at once. */
  lemma {:induction false} AppendAllSplit(prefix: seq<Byte>, a: seq<seq<Byte>>, b: seq<seq<Byte>>)
    ensures AppendAll(prefix, a + b) == AppendAll(AppendAll(prefix, a), b)
    decreases |a|
  {
    if a != [] {
      assert (a + b)[1..] == a[1..] + b;
      AppendAllSplit(AppendOption(prefix, a[0]), a[1..], b);
    } else {
      assert a + b == b;
    }
  }

  /** A filename of 1399 bytes or more does not fit at all: the first append
      returns 0, the rest start over at offset 0, and the request names the
      file "octet" with mode "rollover". */
  lemma RrqLongFilename(filename: seq<Byte>)
    requires |filename| >= 1399
    ensures RrqMessage(filename) == [0, 1] + Join(RequestTail)
    ensures SplitStrings(RrqMessage(filename)[2..]) == RequestTail
  {
    var none: seq<Byte> := [];
    assert AppendOption(none, filename) == none;
    RrqBodyAll(filename);
    AppendAllCons(none, filename, RequestTail);
    RequestTailLength();
    AppendAllJoin(none, RequestTail);
    assert none + Join(RequestTail) == Join(RequestTail);
    assert RrqBody(filename) == Join(RequestTail);
    assert BigEndian16(OpRrq) == [0, 1];
    var m := RrqMessage(filename);
    assert m[2..] == Join(RequestTail);
    RequestTailSplit();
  }

  /** The fixed strings read back from their joined bytes. */
  lemma RequestTailSplit()
    ensures SplitStrings(Join(RequestTail)) == RequestTail
  {
    RequestTailNoNul();
    SplitJoin(RequestTail);
  }

  // ---------------------------------------------------------------------------
  // The acknowledgement

  /** An ACK: opcode 4, then the block number. */
  function AckMessage(block: U16): (m: seq<Byte>)
    ensures |m| == 4
    ensures ReadBigEndian16(m[0], m[1]) == OpAck
    ensures ReadBigEndian16(m[2], m[3]) == block
  {
    BigEndian16(OpAck) + BigEndian16(block)
  }

  // ---------------------------------------------------------------------------
  // The option acknowledgement

  datatype OptionPair = OptionPair(key: seq<Byte>, value: seq<Byte>)

  /** The (option, value) pairs of an OACK message from offset `from`, in
      order. A pair counts only when both its strings are NUL-terminated before
      the end of the message; parsing stops at the first string that is not. */
  function ParseOptions(msg: seq<Byte>, from: nat): seq<OptionPair>
    requires from <= |msg|
    decreases |msg| - from
  {
    var k := NulFrom(msg, from);
    if k == |msg| then []
    else
      var e := NulFrom(msg, k + 1);
      if e == |msg| then []
      else [OptionPair(msg[from..k], msg[k + 1..e])] + ParseOptions(msg, e + 1)
  }

  /** One pair is parsed when both of its strings end in a NUL. */
  lemma ParseOptionsStep(msg: seq<Byte>, from: nat, k: nat, e: nat, p: OptionPair, next: nat)
    requires from <= |msg| && k == NulFrom(msg, from) < |msg|
    requires e == NulFrom(msg, k + 1) < |msg|
    requires p == OptionPair(msg[from..k], msg[k + 1..e]) && next == e + 1
    ensures ParseOptions(msg, from) == [p] + ParseOptions(msg, next)
  {
  }

  /** Parsing stops when either string runs to the end of the payload. */
  lemma ParseOptionsEnd(msg: seq<Byte>, from: nat, k: nat)
    requires from <= |msg| && k == NulFrom(msg, from)
    requires k >= |msg| || NulFrom(msg, k + 1) >= |msg|
    ensures ParseOptions(msg, from) == []
  {
  }

  /** The wire form of a list of pairs: key, NUL, value, NUL, for each. */
  function EncodeOptions(pairs: seq<OptionPair>): seq<Byte> {
    if pairs == [] then []
    else pairs[0].key + [0] + pairs[0].value + [0] + EncodeOptions(pairs[1..])
  }

  predicate CleanPairs(pairs: seq<OptionPair>) {
    forall k :: 0 <= k < |pairs| ==> NoNul(pairs[k].key) && NoNul(pairs[k].value)
  }

  /** A key and a value without NULs, each followed by a NUL, parse as one
      pair, and parsing goes on behind them. */
  lemma ParsePairAt(msg: seq<Byte>, pre: seq<Byte>, p: OptionPair, post: seq<Byte>, next: nat)
    requires NoNul(p.key) && NoNul(p.value)
    requires msg == pre + p.key + [0] + p.value + [0] + post
    requires next == |msg| - |post|
    ensures ParseOptions(msg, |pre|) == [p] + ParseOptions(msg, next)
  {
    var k := |pre| + |p.key|;
    var e := k + 1 + |p.value|;
    forall t | |pre| <= t < k
      ensures msg[t] != 0
    {
      assert msg[t] == p.key[t - |pre|];
    }
    forall t | k + 1 <= t < e
      ensures msg[t] != 0
    {
      assert msg[t] == p.value[t - k - 1];
    }
    NulFromAt(msg, |pre|, k);
    NulFromAt(msg, k + 1, e);
    assert msg[|pre|..k] == p.key;
    assert msg[k + 1..e] == p.value;
    ParseOptionsStep(msg, |pre|, k, e, p, next);
  }

  /** Parsing the encoding of pairs, behind any prefix, gives the pairs back,
      and bytes without a NUL after them (an unterminated string) are ignored. */
  lemma {:induction false} ParseEncodeOptions(prefix: seq<Byte>, pairs: seq<OptionPair>, tail: seq<Byte>)
    requires CleanPairs(pairs) && NoNul(tail)
    ensures ParseOptions(prefix + EncodeOptions(pairs) + tail, |prefix|) == pairs
    decreases |pairs|
  {
    var msg := prefix + EncodeOptions(pairs) + tail;
    var n := |prefix|;
    if pairs == [] {
      assert msg == prefix + tail;
      NulFromAt(msg, n, |msg|);
      ParseOptionsEnd(msg, n, |msg|);
    } else {
      var p := pairs[0];
      var rest := pairs[1..];
      var prefix' := prefix + p.key + [0] + p.value + [0];
      ParseEncodeStep(prefix, pairs, tail);
      ParseEncodeOptions(prefix', rest, tail);
      assert pairs == [p] + rest;
    }
  }

  /** The first pair of an encoding parses, and parsing goes on with the
      first pair moved into the prefix. */
  lemma ParseEncodeStep(prefix: seq<Byte>, pairs: seq<OptionPair>, tail: seq<Byte>)
    requires pairs != [] && CleanPairs(pairs)
    ensures CleanPairs(pairs[1..])
    ensures var p := pairs[0];
      var prefix' := prefix + p.key + [0] + p.value + [0];
      ParseOptions(prefix + EncodeOptions(pairs) + tail, |prefix|) ==
        [p] + ParseOptions(prefix' + EncodeOptions(pairs[1..]) + tail, |prefix'|)
  {
    var msg := prefix + EncodeOptions(pairs) + tail;
    var p := pairs[0];
    var prefix' := prefix + p.key + [0] + p.value + [0];
    var post := EncodeOptions(pairs[1..]) + tail;
    assert NoNul(p.key) && NoNul(p.value);
    assert msg == prefix + p.key + [0] + p.value + [0] + post;
    ParsePairAt(msg, prefix, p, post, |prefix'|);
    assert msg == prefix' + EncodeOptions(pairs[1..]) + tail;
  }

  // ---------------------------------------------------------------------------
  // atoi

  predicate IsSpace(b: Byte) {
    b == 0x20 || 0x09 <= b <= 0x0d
  }

  predicate IsDigit(b: Byte) {
    0x30 <= b <= 0x39
  }

  /** Length of the run of decimal digits at the start of `s`. */
  function DigitRun(s: seq<Byte>): (n: nat)
    ensures n <= |s|
    ensures forall k :: 0 <= k < n ==> IsDigit(s[k])
    ensures n < |s| ==> !IsDigit(s[n])
  {
    if s != [] && IsDigit(s[0]) then 1 + DigitRun(s[1..]) else 0
  }

  /** The value of a string of decimal digits, most significant first. */
  function DigitsValue(d: seq<Byte>): nat
    requires forall k :: 0 <= k < |d| ==> IsDigit(d[k])
  {
    if d == [] then 0
    else
      var last := d[|d| - 1];
      assert IsDigit(last);
      DigitsValue(d[..|d| - 1]) * 10 + (last - 0x30)
  }

  /** C's `atoi`: leading white space, an optional sign, then the longest run of
      decimal digits; 0 when there are none. */
  function Atoi(s: seq<Byte>): int {
    if s != [] && IsSpace(s[0]) then Atoi(s[1..])
    else if s != [] && (s[0] == 0x2d || s[0] == 0x2b) then
      var d := s[1..][..DigitRun(s[1..])];
      if s[0] == 0x2d then -(DigitsValue(d) as int) else DigitsValue(d)
    else DigitsValue(s[..DigitRun(s)])
  }

  /** The decimal digits of `n`, most significant first, as `printf("%d")`
      writes them. */
  function Decimal(n: nat): (d: seq<Byte>)
    ensures |d| > 0 && forall k :: 0 <= k < |d| ==> IsDigit(d[k])
  {
    if n < 10 then [0x30 + n] else Decimal(n / 10) + [0x30 + n % 10]
  }

  lemma {:induction false} DigitsValueDecimal(n: nat)
    ensures DigitsValue(Decimal(n)) == n
  {
    if n >= 10 {
      var d := Decimal(n);
      assert d[..|d| - 1] == Decimal(n / 10);
      DigitsValueDecimal(n / 10);
    }
  }

  /** `atoi` reads back any decimal number, whatever non-digit ends it. */
  lemma AtoiDecimal(n: nat, tail: seq<Byte>)
    requires tail != [] ==> !IsDigit(tail[0])
    ensures Atoi(Decimal(n) + tail) == n
  {
    var s := Decimal(n) + tail;
    var d := Decimal(n);
    DigitRunAllPrefix(d, tail);
    assert s[..|d|] == d;
    DigitsValueDecimal(n);
  }

  lemma {:induction false} DigitRunAllPrefix(d: seq<Byte>, tail: seq<Byte>)
    requires forall k :: 0 <= k < |d| ==> IsDigit(d[k])
    requires tail != [] ==> !IsDigit(tail[0])
    ensures DigitRun(d + tail) == |d|
  {
    if d != [] {
      assert (d + tail)[1..] == d[1..] + tail;
      DigitRunAllPrefix(d[1..], tail);
    } else {
      assert d + tail == tail;
    }
  }

  /** The values the client itself requests convert back: "1024" is 1024. */
  lemma AtoiRequested()
    ensures Atoi(BlockSizeText) == 1024 && Atoi(WindowText) == 8 && Atoi(ZeroText) == 0
  {
    assert BlockSizeText == Decimal(1024) + [];
    AtoiDecimal(1024, []);
    assert WindowText == Decimal(8) + [];
    AtoiDecimal(8, []);
    assert ZeroText == Decimal(0) + [];
    AtoiDecimal(0, []);
  }
}
