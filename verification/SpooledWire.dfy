/** What reaches the client of a response that was spooled to disk: the store is rewound on every
    slice, so its first block goes out over and over. */
module SpooledWire {
  import opened ByteStrings
  import opened ByteStore
  import opened ResponseModel
  import opened ResponseWire

  function Repeated(block: string, n: nat): (s: string)
    requires block != ""
    ensures |s| == n
  {
    if n <= |block| then block[..n] else block + Repeated(block, n - |block|)
  }

  /** The offset of position `i` in its repetition. */
  function Phase(i: nat, period: nat): (p: nat)
    requires period > 0
    ensures p < period && p <= i
  {
    if i < period then i else Phase(i - period, period)
  }

  function FirstBlock(r: Resp): string {
    r.body.data[..Min(CHUNK, |r.body.data|)]
  }

  /** A response that answers from a spooled store. */
  predicate Spooled(r: Resp) {
    ValidResp(r) && r.header != "" && r.file.NoFile? && r.body.mode.File? && r.body.data != ""
  }

  /** The first `n` bytes a spooled response puts on the wire. */
  function Tape(r: Resp, n: nat): (s: string)
    requires Spooled(r)
    ensures |s| == n
  {
    if n <= |r.header| then r.header[..n] else r.header + Repeated(FirstBlock(r), n - |r.header|)
  }

  /** The header, then repetitions of the first block, with the rest of the current repetition in the
      stream buffer. */
  predicate Repeating(r: Resp, wire: string) {
    && Spooled(r) && r.sending.SENDING_BODY_STATIC?
    && wire == r.header + Repeated(FirstBlock(r), r.sent - |r.header|)
    && (if r.streamBuf == "" then Phase(r.sent - |r.header|, |FirstBlock(r)|) == 0
        else r.streamBuf == FirstBlock(r) && r.streamSent == Phase(r.sent - |r.header|, |FirstBlock(r)|))
  }

  predicate InHeader(r: Resp, wire: string) {
    && Spooled(r) && r.sending.SENDING_RES_HEAD? && r.sent < |r.header|
    && wire == r.header[..r.sent] && r.streamBuf == "" && r.streamSent == 0
  }

  predicate SpooledOut(r: Resp, wire: string) {
    InHeader(r, wire) || Repeating(r, wire)
  }

  /** Where the repetition that position `k` of the body lies in comes to its end. */
  function BlockEnd(r: Resp, k: nat): nat
    requires Spooled(r)
  {
    k - Phase(k, |FirstBlock(r)|) + |FirstBlock(r)|
  }

  /** One slice: only bytes of the tape go out, and not beyond the current repetition. `More` and
      `Done` depend on the very position that is reached. */
  predicate SliceOnTape(r: Resp, wire: string, s: Sent, failureFree: bool)
    requires Spooled(r)
  {
    && s.resp.header == r.header && s.resp.body.data == r.body.data
    && wire <= s.wire && s.wire == Tape(r, |s.wire|)
    && |s.wire| <= |r.header| + BlockEnd(r, if |wire| <= |r.header| then 0 else |wire| - |r.header|)
    && (s.end.More? ==> SpooledOut(s.resp, s.wire) && |wire| < |s.wire| && |s.wire| != |Message(r)|)
    && (s.end.Done? && failureFree ==> |s.wire| == |Message(r)|)
  }

  lemma {:induction false} RepeatedGrows(block: string, k: nat, n: nat)
    requires block != "" && Phase(k, |block|) + n <= |block|
    ensures var at := Phase(k, |block|);
            Repeated(block, k) + block[at..at + n] == Repeated(block, k + n) &&
            Phase(k + n, |block|) == if at + n == |block| then 0 else at + n
    decreases k
  {
    hide Repeated, Phase;
    var at := Phase(k, |block|);
    if k > |block| {
      RepeatedStep(block, k);
      RepeatedStep(block, k + n);
      PhaseStep(k, |block|);
      PhaseStep(k + n, |block|);
      RepeatedGrows(block, k - |block|, n);
      assert block + Repeated(block, k - |block|) + block[at..at + n] ==
             block + (Repeated(block, k - |block|) + block[at..at + n]);
    } else {
      FirstGrows(block, k, n);
    }
  }

  lemma RepeatedStep(block: string, n: nat)
    requires block != "" && n > |block|
    ensures Repeated(block, n) == block + Repeated(block, n - |block|)
  {}

  lemma PhaseStep(k: nat, period: nat)
    requires k >= period > 0
    ensures Phase(k, period) == Phase(k - period, period)
  {}

  lemma FirstGrows(block: string, k: nat, n: nat)
    requires block != "" && k <= |block| && Phase(k, |block|) + n <= |block|
    ensures var at := Phase(k, |block|);
            Repeated(block, k) + block[at..at + n] == Repeated(block, k + n) &&
            Phase(k + n, |block|) == if at + n == |block| then 0 else at + n
  {
    if k == |block| {
      assert block[..n] == block[0..n];
    } else {
      assert block[..k] + block[k..k + n] == block[..k + n];
    }
  }

  lemma {:induction false} RepeatedAt(block: string, n: nat, i: nat)
    requires block != "" && i < n
    ensures Repeated(block, n)[i] == block[Phase(i, |block|)]
    decreases n
  {
    if n > |block| && i >= |block| {
      RepeatedAt(block, n - |block|, i - |block|);
    }
  }

  lemma TapeOfBody(r: Resp, k: nat)
    requires Spooled(r)
    ensures Tape(r, |r.header| + k) == r.header + Repeated(FirstBlock(r), k)
  {
    if k == 0 {
      assert r.header[..|r.header|] == r.header && FirstBlock(r)[..0] == "";
    }
  }

  // ---------------------------------------------------------------- one slice

  lemma SpooledBody(r: Resp, wire: string, env: SendEnv)
    requires Repeating(r, wire)
    ensures SliceOnTape(r, wire, SendBody(r, wire, env), NoFailure(env))
  {
    var r0 := r.(body := Rewound(r.body));
    var k := r.sent - |r.header|;
    assert ReadBytes(r0.body, CHUNK) == FirstBlock(r);
    TapeOfBody(r, k);
    hide Repeated, Phase, Tape;
    if !env.body.pipeBefore {
      BlockSent(Refilled(r0), wire, env);
      SameTape(r, Refilled(r0), SendSpooled(Refilled(r0), wire, env), wire, NoFailure(env));
    }
  }

  lemma SameTape(r: Resp, r1: Resp, s: Sent, wire: string, failureFree: bool)
    requires Spooled(r) && Spooled(r1) && r1.header == r.header && r1.body.data == r.body.data
    requires SliceOnTape(r1, wire, s, failureFree)
    ensures SliceOnTape(r, wire, s, failureFree)
  {
    hide Repeated, Phase;
    assert FirstBlock(r1) == FirstBlock(r) && Message(r1) == Message(r);
  }

  /** Sending from the stream buffer, which holds the first block. */
  lemma BlockSent(r: Resp, wire: string, env: SendEnv)
    requires Spooled(r) && r.sending.SENDING_BODY_STATIC? && r.streamBuf == FirstBlock(r)
    requires wire == r.header + Repeated(FirstBlock(r), r.sent - |r.header|)
    requires r.streamSent == Phase(r.sent - |r.header|, |FirstBlock(r)|)
    ensures SliceOnTape(r, wire, SendSpooled(r, wire, env), NoFailure(env))
  {
    hide Repeated, Phase, Tape, FirstBlock, BlockEnd, Repeating, SliceOnTape, Consumed, Message, Spooled;
    SendableBody(r);
    PartLeft(r);
    var n := Taken(env.body, |r.streamBuf| - r.streamSent);
    assert r.streamSent + n <= |r.streamBuf|;
    PartOfBlock(r, wire, n);
    if n > 0 {
      ConsumedRepeats(r, wire, n);
    }
    if NoFailure(env) {
      SomethingTaken(env.body, |r.streamBuf| - r.streamSent);
    }
    hide Taken;
    BlockCases(r, wire, wire + r.streamBuf[r.streamSent..r.streamSent + n], n, NoFailure(env));
  }

  /** The ways a slice of the body may end after `n` bytes. */
  lemma BlockCases(r: Resp, wire: string, wire1: string, n: nat, failureFree: bool)
    requires Spooled(r) && r.streamSent + n <= |r.streamBuf|
    requires wire <= wire1 && wire == Tape(r, |wire|) && wire1 == Tape(r, |wire1|)
    requires |wire1| == r.sent + n == |wire| + n
    requires |wire1| <= |r.header| + BlockEnd(r, if |wire| <= |r.header| then 0 else |wire| - |r.header|)
    requires var next := Consumed(r, n);
             n > 0 ==> Repeating(next, wire1) && next.header == r.header && next.body == r.body &&
                       next.sent == r.sent + n
    ensures SliceOnTape(r, wire, Sent(r, wire1, Threw), failureFree)
    ensures !failureFree ==> SliceOnTape(r, wire, Sent(r, wire, Done), failureFree)
    ensures n > 0 ==>
              var next := Consumed(r, n);
              var end := if next.sent == |next.header| + |next.body.data| then Done else More;
              SliceOnTape(r, wire, Sent(next, wire1, end), failureFree)
  {
    hide Repeated, Phase, Tape, FirstBlock, BlockEnd, Repeating, SliceOnTape, Consumed, Message, ValidResp;
    SizeOfMessage(r);
    OnTape(r, wire, Sent(r, wire1, Threw), failureFree);
    if !failureFree {
      OnTape(r, wire, Sent(r, wire, Done), failureFree);
    }
    if n > 0 {
      var next := Consumed(r, n);
      var end := if next.sent == |next.header| + |next.body.data| then Done else More;
      OnTape(r, wire, Sent(next, wire1, end), failureFree);
    }
  }

  lemma SomethingTaken(call: Call, offered: nat)
    requires call.result > 0 && offered > 0
    ensures Taken(call, offered) > 0
  {}

  /** The stream buffer is never found used up. */
  lemma PartLeft(r: Resp)
    requires Spooled(r) && r.streamBuf == FirstBlock(r) && r.sent >= |r.header|
    requires r.streamSent == Phase(r.sent - |r.header|, |FirstBlock(r)|)
    ensures r.streamSent < |r.streamBuf|
  {}

  lemma SizeOfMessage(r: Resp)
    requires Spooled(r)
    ensures |Message(r)| == |r.header| + |r.body.data|
  {}

  lemma OnTape(r: Resp, wire: string, s: Sent, failureFree: bool)
    requires Spooled(r) && s.resp.header == r.header && s.resp.body.data == r.body.data
    requires wire <= s.wire && s.wire == Tape(r, |s.wire|)
    requires |s.wire| <= |r.header| + BlockEnd(r, if |wire| <= |r.header| then 0 else |wire| - |r.header|)
    requires s.end.More? ==> Repeating(s.resp, s.wire) && |wire| < |s.wire| && |s.wire| != |Message(r)|
    requires s.end.Done? && failureFree ==> |s.wire| == |Message(r)|
    ensures SliceOnTape(r, wire, s, failureFree)
  {
    hide Repeated, Phase, Tape, FirstBlock, BlockEnd, Repeating, Message;
  }

  /** `n` bytes of the block that is in the stream buffer are the next `n` bytes of the tape. */
  lemma PartOfBlock(r: Resp, wire: string, n: nat)
    requires Spooled(r) && r.sending.SENDING_BODY_STATIC? && r.streamBuf == FirstBlock(r)
    requires wire == r.header + Repeated(FirstBlock(r), r.sent - |r.header|)
    requires r.streamSent == Phase(r.sent - |r.header|, |FirstBlock(r)|)
    requires r.streamSent + n <= |r.streamBuf|
    ensures var wire1 := wire + r.streamBuf[r.streamSent..r.streamSent + n];
            && |wire| == r.sent && |wire1| == r.sent + n && wire <= wire1
            && wire == Tape(r, |wire|) && wire1 == Tape(r, |wire1|)
            && wire1 == r.header + Repeated(FirstBlock(r), r.sent + n - |r.header|)
            && |wire1| <= |r.header| + BlockEnd(r, if |wire| <= |r.header| then 0 else |wire| - |r.header|)
  {
    hide Repeated, Phase, Tape, ValidResp;
    SendableBody(r);
    var block := FirstBlock(r);
    var k := r.sent - |r.header|;
    hide FirstBlock;
    RepeatedGrows(block, k, n);
    var more := block[r.streamSent..r.streamSent + n];
    assert r.header + Repeated(block, k) + more == r.header + (Repeated(block, k) + more);
    TapeOfBody(r, k);
    TapeOfBody(r, k + n);
    PhaseOfZero(|block|);
  }

  lemma SendableBody(r: Resp)
    requires Spooled(r) && r.sending.SENDING_BODY_STATIC?
    ensures r.sent >= |r.header| && FirstBlock(r) != ""
  {}

  lemma ConsumedRepeats(r: Resp, wire: string, n: nat)
    requires Spooled(r) && r.sending.SENDING_BODY_STATIC? && r.streamBuf == FirstBlock(r) && n > 0
    requires r.streamSent == Phase(r.sent - |r.header|, |FirstBlock(r)|)
    requires r.streamSent + n <= |r.streamBuf|
    ensures var next := Consumed(r, n);
            && Repeating(next, r.header + Repeated(FirstBlock(r), r.sent + n - |r.header|))
            && next.header == r.header && next.body == r.body && next.sent == r.sent + n
  {
    hide Repeated, Phase;
    RepeatedGrows(FirstBlock(r), r.sent - |r.header|, n);
  }

  lemma PhaseOfZero(period: nat)
    requires period > 0
    ensures Phase(0, period) == 0
  {}

  lemma SpooledSlice(r: Resp, wire: string, env: SendEnv)
    requires SpooledOut(r, wire)
    ensures SliceOnTape(r, wire, SendSlice(r, wire, env), NoFailure(env))
  {
    hide SendBody, SliceOnTape;
    if Repeating(r, wire) {
      SpooledBody(r, wire, env);
    } else {
      var n := Taken(env.head, Min(|r.header| - r.sent, CHUNK));
      var wire1 := wire + r.header[r.sent..r.sent + n];
      assert wire1 == r.header[..r.sent + n];
      HeaderPart(r, wire, n, env);
      if !env.head.pipeBefore && !env.head.pipeAfter && r.sent + n == |r.header| {
        var r1 := r.(sent := |r.header|, sending := SENDING_BODY_STATIC);
        BodyStarts(r, r1);
        SpooledBody(r1, wire1, env);
        FromTheHeader(r, r1, wire, SendBody(r1, wire1, env), NoFailure(env));
      }
    }
  }

  /** The ways the header part of a slice may end before the body is reached. */
  lemma HeaderPart(r: Resp, wire: string, n: nat, env: SendEnv)
    requires InHeader(r, wire) && r.sent + n <= |r.header|
    ensures var wire1 := r.header[..r.sent + n];
            && SliceOnTape(r, wire, Sent(r, wire, Threw), NoFailure(env))
            && SliceOnTape(r, wire, Sent(r, wire1, Threw), NoFailure(env))
            && (!NoFailure(env) ==> SliceOnTape(r, wire, Sent(r, wire, Done), NoFailure(env)))
            && (0 < n && r.sent + n < |r.header| ==>
                  SliceOnTape(r, wire, Sent(r.(sent := r.sent + n), wire1, More), NoFailure(env)))
  {
    hide Repeated, Phase;
    PhaseOfZero(|FirstBlock(r)|);
  }

  lemma BodyStarts(r: Resp, r1: Resp)
    requires Spooled(r) && r1 == r.(sent := |r.header|, sending := SENDING_BODY_STATIC)
    requires r.streamBuf == "" && r.streamSent == 0
    ensures Repeating(r1, r.header[..|r.header|])
  {
    assert r.header[..|r.header|] == r.header;
    assert Repeated(FirstBlock(r1), 0) == "";
  }

  lemma FromTheHeader(r: Resp, r1: Resp, wire: string, s: Sent, failureFree: bool)
    requires InHeader(r, wire) && Spooled(r1) && r1 == r.(sent := |r.header|, sending := SENDING_BODY_STATIC)
    requires SliceOnTape(r1, r.header[..|r.header|], s, failureFree)
    ensures SliceOnTape(r, wire, s, failureFree)
  {
    hide Repeated, Phase;
    assert FirstBlock(r1) == FirstBlock(r) && Message(r1) == Message(r);
    assert wire <= r.header[..|r.header|];
  }

  // ---------------------------------------------------------------- whole runs

  lemma OutIsValid(r: Resp, wire: string)
    requires SpooledOut(r, wire)
    ensures ValidResp(r) && Spooled(r) && wire == Tape(r, |wire|)
  {
    if Repeating(r, wire) {
      TapeOfBody(r, r.sent - |r.header|);
    }
  }

  /** Every byte is the one at its place in the first block. */
  predicate RepeatsFirstBlock(data: string)
    requires data != ""
  {
    forall i: nat :: i < |data| ==> data[i] == data[Phase(i, Min(16384, |data|))]
  }

  /** No block is cut short. */
  predicate WholeBlocks(data: string) {
    |data| <= 16384 || |data| % 16384 == 0
  }

  /** Just built, with nothing sent. */
  predicate JustSpooled(r: Resp) {
    Spooled(r) && r.sent == 0 && r.sending.SENDING_RES_HEAD? && r.streamBuf == "" && r.streamSent == 0
  }

  ghost predicate AlwaysPrefix(r: Resp)
    requires ValidResp(r)
  {
    forall envs :: SendAll(r, "", envs).wire <= Message(r)
  }

  lemma {:induction false} PhaseOfChunk(k: nat)
    ensures Phase(k, CHUNK) == k % CHUNK
  {
    if k >= CHUNK {
      PhaseOfChunk(k - CHUNK);
    }
  }

  /** With whole blocks no repetition reaches beyond the body. */
  lemma BlockEndsInBody(r: Resp, k: nat)
    requires Spooled(r) && WholeBlocks(r.body.data) && k < |r.body.data|
    ensures BlockEnd(r, k) <= |r.body.data|
  {
    if |r.body.data| > CHUNK {
      PhaseOfChunk(k);
    }
  }

  lemma TapeIsMessage(r: Resp, n: nat)
    requires Spooled(r) && RepeatsFirstBlock(r.body.data) && n <= |Message(r)|
    ensures Tape(r, n) <= Message(r)
  {
    hide Phase, Repeated;
    var data := r.body.data;
    if n > |r.header| {
      var k := n - |r.header|;
      forall i | 0 <= i < k ensures Repeated(FirstBlock(r), k)[i] == data[i] {
        RepeatedAt(FirstBlock(r), k, i);
      }
      assert Repeated(FirstBlock(r), k) <= data;
    }
  }

  /** A body of whole equal blocks arrives like any other. */
  lemma {:induction false} EqualBlocksArrive(r: Resp, wire: string, envs: seq<SendEnv>)
    requires SpooledOut(r, wire) && ValidResp(r) && |wire| < |Message(r)|
    requires RepeatsFirstBlock(r.body.data) && WholeBlocks(r.body.data)
    ensures var s := SendAll(r, wire, envs);
            && s.wire <= Message(r)
            && (FailureFree(envs) && !s.end.Threw? ==> (s.end.Done? <==> s.wire == Message(r)))
    decreases |envs|
  {
    hide SendSlice, RepeatsFirstBlock, Tape, BlockEnd, Repeating, InHeader;
    OutIsValid(r, wire);
    TapeIsMessage(r, |wire|);
    if envs != [] {
      SpooledSlice(r, wire, envs[0]);
      var s := SendSlice(r, wire, envs[0]);
      BlockEndsInBody(r, if |wire| <= |r.header| then 0 else |wire| - |r.header|);
      TapeIsMessage(r, |s.wire|);
      if s.end.More? {
        OutIsValid(s.resp, s.wire);
        assert Message(s.resp) == Message(r);
        EqualBlocksArrive(s.resp, s.wire, envs[1..]);
        assert FailureFree(envs) ==> FailureFree(envs[1..]);
      }
    }
  }

  // ---------------------------------------------------------------- full sends

  /** Every call takes all that it is offered. */
  const FULL := SendEnv(Call(CHUNK, false, false), 1, Call(CHUNK, false, false))

  lemma FullSlice(r: Resp, wire: string)
    requires SpooledOut(r, wire) && r.streamBuf == ""
    ensures var s := SendSlice(r, wire, FULL);
            && !s.end.Threw? && |wire| < |s.wire|
            && (s.end.More? ==> SpooledOut(s.resp, s.wire) && s.resp.streamBuf == "")
            && (s.end.Done? ==> |s.wire| == |Message(r)|)
            && (|s.wire| > |r.header| ==> Phase(|s.wire| - |r.header|, |FirstBlock(r)|) == 0)
  {
    hide Repeated, Phase, Tape, BlockEnd, SendBody;
    SpooledSlice(r, wire, FULL);
    if Repeating(r, wire) {
      FullBody(r, wire);
    } else {
      var n := Min(|r.header| - r.sent, CHUNK);
      var wire1 := wire + r.header[r.sent..r.sent + n];
      assert wire1 == r.header[..r.sent + n];
      if r.sent + n == |r.header| {
        var r1 := r.(sent := |r.header|, sending := SENDING_BODY_STATIC);
        BodyStarts(r, r1);
        FullBody(r1, wire1);
      }
    }
  }

  lemma FullBody(r: Resp, wire: string)
    requires Repeating(r, wire) && r.streamBuf == ""
    ensures var s := SendBody(r, wire, FULL);
            && !s.end.Threw? && |s.wire| == |wire| + |FirstBlock(r)|
            && s.resp.streamBuf == "" && Phase(|s.wire| - |r.header|, |FirstBlock(r)|) == 0
  {
    var r0 := r.(body := Rewound(r.body));
    var k := r.sent - |r.header|;
    assert ReadBytes(r0.body, CHUNK) == FirstBlock(r);
    hide Repeated, Phase;
    RepeatedGrows(FirstBlock(r), k, |FirstBlock(r)|);
  }

  /** Full sends reach any position of the message, and any position at all if the body is not made
      of whole blocks. */
  lemma {:induction false} FullRun(r: Resp, wire: string, goal: nat) returns (envs: seq<SendEnv>)
    requires SpooledOut(r, wire) && ValidResp(r) && r.streamBuf == ""
    requires goal <= |Message(r)| || !WholeBlocks(r.body.data)
    ensures var s := SendAll(r, wire, envs);
            |s.wire| >= goal && s.wire == Tape(r, |s.wire|)
    decreases goal - |wire|
  {
    OutIsValid(r, wire);
    if |wire| >= goal {
      envs := [];
    } else {
      FullSlice(r, wire);
      SpooledSlice(r, wire, FULL);
      var s := SendSlice(r, wire, FULL);
      hide SendSlice, Repeating, InHeader, Phase, BlockEnd;
      if s.end.More? {
        OutIsValid(s.resp, s.wire);
        SameMessageOn(r, s.resp);
        var more := FullRun(s.resp, s.wire, goal);
        TapeCarriesOver(r, s.resp, |SendAll(s.resp, s.wire, more).wire|);
        envs := [FULL] + more;
        assert envs[1..] == more;
      } else {
        NotCutShort(r, |s.wire| - |r.header|);
        envs := [FULL];
        assert envs[1..] == [];
      }
    }
  }

  lemma SameMessageOn(r: Resp, next: Resp)
    requires Spooled(r) && Spooled(next) && next.header == r.header && next.body.data == r.body.data
    ensures Message(next) == Message(r)
  {}

  lemma TapeCarriesOver(r: Resp, next: Resp, n: nat)
    requires Spooled(r) && Spooled(next) && next.header == r.header && next.body.data == r.body.data
    ensures Tape(next, n) == Tape(r, n)
  {}

  /** A body that is not made of whole blocks never ends with a repetition. */
  lemma NotCutShort(r: Resp, k: nat)
    requires Spooled(r) && Phase(k, |FirstBlock(r)|) == 0 && k == |r.body.data|
    ensures WholeBlocks(r.body.data)
  {
    if |r.body.data| > CHUNK {
      PhaseOfChunk(k);
    }
  }

  /** A spooled response stays a prefix of header and body in every run if and only if its body
      repeats the first block and consists of whole blocks. */
  lemma SpooledFaithfulIff(r: Resp)
    requires JustSpooled(r)
    ensures AlwaysPrefix(r) <==> RepeatsFirstBlock(r.body.data) && WholeBlocks(r.body.data)
  {
    hide SendSlice, Repeated, Phase, Repeating;
    var data := r.body.data;
    assert InHeader(r, "");
    if RepeatsFirstBlock(data) && WholeBlocks(data) {
      forall envs ensures SendAll(r, "", envs).wire <= Message(r) {
        EqualBlocksArrive(r, "", envs);
      }
    } else if !WholeBlocks(data) {
      Overrun(r);
    } else {
      var i: nat :| i < |data| && data[i] != data[Phase(i, Min(CHUNK, |data|))];
      var envs := FullRun(r, "", |r.header| + i + 1);
      var wire := SendAll(r, "", envs).wire;
      RepeatedAt(FirstBlock(r), |wire| - |r.header|, i);
      assert wire[|r.header| + i] == Repeated(FirstBlock(r), |wire| - |r.header|)[i];
      assert Message(r)[|r.header| + i] == data[i];
    }
  }

  /** A body that is not made of whole blocks is overrun: more goes out than header and body hold. */
  lemma Overrun(r: Resp)
    requires JustSpooled(r) && !WholeBlocks(r.body.data)
    ensures exists envs :: |SendAll(r, "", envs).wire| > |Message(r)|
  {
    hide SendSlice, Repeating;
    assert InHeader(r, "");
    var envs := FullRun(r, "", |Message(r)| + 1);
    assert |SendAll(r, "", envs).wire| > |Message(r)|;
  }

  /** One byte more than the 1 MiB that stays in RAM, all of them equal: every block looks like the
      first, and still more is sent than there is. */
  lemma OneByteTooMany(r: Resp)
    requires JustSpooled(r) && r.body.data == seq(1048577, _ => 'a')
    ensures RepeatsFirstBlock(r.body.data)
    ensures exists envs :: |SendAll(r, "", envs).wire| > |Message(r)|
  {
    hide SendAll;
    assert |r.body.data| == 64 * CHUNK + 1;
    Overrun(r);
  }

  /** Without failures and SIGPIPE, such a body arrives whole in as many slices as there are bytes. */
  lemma {:induction false} EqualBlocksComplete(r: Resp, wire: string, envs: seq<SendEnv>)
    requires SpooledOut(r, wire) && ValidResp(r) && |wire| < |Message(r)| && |envs| >= |Message(r)| - |wire|
    requires RepeatsFirstBlock(r.body.data) && WholeBlocks(r.body.data) && FailureFree(envs) && AllQuiet(envs)
    ensures var s := SendAll(r, wire, envs); s.end.Done? && s.wire == Message(r)
    decreases |envs|
  {
    hide SendSlice, Message, RepeatsFirstBlock, WholeBlocks, Repeating, InHeader;
    EqualBlocksArrive(r, wire, envs);
    SpooledRunCompletes(r, wire, envs);
    QuietRun(r, wire, envs);
  }

  /** As many slices as there are bytes left cannot stay unfinished. */
  lemma {:induction false} SpooledRunCompletes(r: Resp, wire: string, envs: seq<SendEnv>)
    requires SpooledOut(r, wire) && ValidResp(r) && |wire| < |Message(r)| && |envs| >= |Message(r)| - |wire|
    requires RepeatsFirstBlock(r.body.data) && WholeBlocks(r.body.data)
    ensures !SendAll(r, wire, envs).end.More?
    decreases |envs|
  {
    hide SendSlice, Message, RepeatsFirstBlock, WholeBlocks, Repeating, InHeader;
    SpooledIsValid(r, wire);
    SpooledSlice(r, wire, envs[0]);
    var s := SendSlice(r, wire, envs[0]);
    if s.end.More? {
      EqualBlocksArrive(r, wire, envs[..1]);
      OneSlice(r, wire, envs[0]);
      assert envs[..1] == [envs[0]];
      SpooledIsValid(s.resp, s.wire);
      SameMessageAfter(r, s.resp);
      SpooledRunCompletes(s.resp, s.wire, envs[1..]);
    }
  }

  lemma SpooledIsValid(r: Resp, wire: string)
    requires SpooledOut(r, wire)
    ensures ValidResp(r) && Spooled(r)
  {
    hide Repeated, Phase;
  }

  lemma SameMessageAfter(r: Resp, s: Resp)
    requires Spooled(r) && Spooled(s) && s.header == r.header && s.body.data == r.body.data
    ensures Message(s) == Message(r)
  {}

  lemma OneSlice(r: Resp, wire: string, env: SendEnv)
    requires ValidResp(r) && SendSlice(r, wire, env).end.More?
    ensures SendAll(r, wire, [env]).wire == SendSlice(r, wire, env).wire
  {
    hide SendSlice;
    SliceKeepsValid(r, wire, env);
    var s := SendSlice(r, wire, env);
    assert [env][1..] == [];
    assert SendAll(s.resp, s.wire, []) == Sent(s.resp, s.wire, More);
  }

  // ---------------------------------------------------------------- responses as they are built

  /** A page that has been built starts a run of sendSlice: from memory if it fits there, and from a
      spooled store otherwise. A header is never empty, it has a status line. */
  lemma PageStartsRun(r: Resp, status: nat, header: string, page: string)
    requires header != ""
    ensures var p := Page(r, status, header, page);
            && Message(p) == header + page && p.body.data == page
            && if |page| <= r.body.limit then JustBuilt(p) else JustSpooled(p)
  {
    assert "" + page == page;
  }

  /** So does the answer to an upload that is complete. */
  lemma DonePageStartsRun(postPos: nat, body: Store, out: string, pages: Pages)
    requires pages.doneHeader != "" && |pages.donePage| <= BUFFER_LIMIT
    ensures var r := FRESH_RESP.(postPos := postPos, phase := BUILD_POST_WRITING);
            JustBuilt(FinishPost(r, body, out, true, pages).resp)
  {}

  /** The client of a page receives nothing but a prefix of header and page in every run if and only if
      the page fits in memory, or repeats its first block and consists of whole blocks. */
  lemma PageFaithfulIff(r: Resp, status: nat, header: string, page: string)
    requires header != ""
    ensures var p := Page(r, status, header, page);
            ValidResp(p) &&
            (AlwaysPrefix(p) <==> |page| <= r.body.limit || (RepeatsFirstBlock(page) && WholeBlocks(page)))
  {
    hide SendSlice, RepeatsFirstBlock, WholeBlocks, Page, Message;
    var p := Page(r, status, header, page);
    PageStartsRun(r, status, header, page);
    if |page| <= r.body.limit {
      forall envs ensures SendAll(p, "", envs).wire <= Message(p) {
        BuiltResponseArrives(p, envs);
      }
    } else {
      SpooledFaithfulIff(p);
    }
  }
}
