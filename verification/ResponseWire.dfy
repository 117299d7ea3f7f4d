/** What reaches the client: between two rebuilds of the response, the bytes on the wire. */
module ResponseWire {
  import opened ByteStrings
  import opened ByteStore
  import opened ResponseModel

  /** The body as the client is to receive it. */
  function BodyBytes(r: Resp): string {
    if r.file.ServedFile? then r.file.bytes else r.body.data
  }

  function Message(r: Resp): string {
    r.header + BodyBytes(r)
  }

  /** The body is in memory, or in a file whose size is what stat() reported. */
  predicate Sendable(r: Resp) {
    && ValidResp(r) && r.header != ""
    && (r.file.NoFile? ==> r.body.mode.Ram? && r.streamBuf == "")
    && (r.file.ServedFile? ==> r.file.size == |r.file.bytes|)
  }

  /** The wire holds what has been counted as sent; for a served file the stream buffer holds the
      bytes between the read offset and the send position. */
  predicate Accounted(r: Resp, wire: string) {
    && Sendable(r)
    && r.sent <= |Message(r)| && wire == Message(r)[..r.sent]
    && (r.sending.SENDING_RES_HEAD? ==> r.sent < |r.header|)
    && (r.file.ServedFile? ==>
          && |r.streamBuf| <= r.file.pos
          && r.streamBuf == r.file.bytes[r.file.pos - |r.streamBuf|..r.file.pos]
          && (r.streamBuf != "" ==> r.streamSent < |r.streamBuf|)
          && r.file.pos - |r.streamBuf| + r.streamSent ==
             (if r.sending.SENDING_RES_HEAD? then 0 else r.sent - |r.header|))
  }

  /** A response that has just been built, with nothing sent. */
  predicate JustBuilt(r: Resp) {
    && Sendable(r) && r.sent == 0 && r.sending.SENDING_RES_HEAD? && r.streamBuf == "" && r.streamSent == 0
    && (r.file.ServedFile? ==> r.file.pos == 0)
  }

  lemma JustBuiltAccounted(r: Resp)
    requires JustBuilt(r)
    ensures Accounted(r, "")
  {
    assert Message(r)[..0] == "";
    if r.file.ServedFile? {
      assert r.file.bytes[0..0] == "";
    }
  }

  /** Every call of the slice that was made did some work. */
  predicate NoFailure(env: SendEnv) {
    env.head.result > 0 && env.fileRead > 0 && env.body.result > 0
  }

  /** The same header and the same body bytes; a served file may have been closed. */
  predicate SameMessage(r: Resp, s: Resp) {
    s.header == r.header && s.body.data == r.body.data &&
    (s.file.ServedFile? ==> r.file.ServedFile? && s.file.bytes == r.file.bytes)
  }

  /** One slice: the wire stays a prefix of header and body and only grows; `More` means strictly
      more is out and the books still balance; and unless a call failed, `Done` means that
      everything is out. */
  predicate SliceCorrect(r: Resp, wire: string, s: Sent, failureFree: bool) {
    && wire <= s.wire && s.wire <= Message(r)
    && (s.end.More? ==> Accounted(s.resp, s.wire) && SameMessage(r, s.resp) && Message(s.resp) == Message(r) &&
                        |wire| < |s.wire| < |Message(r)|)
    && (s.end.Done? && failureFree ==> s.wire == Message(r))
  }

  lemma SliceIsCorrect(r: Resp, wire: string, env: SendEnv)
    requires Accounted(r, wire)
    ensures SliceCorrect(r, wire, SendSlice(r, wire, env), NoFailure(env))
  {
    hide SliceCorrect;
    if r.sending.SENDING_RES_HEAD? {
      HeaderIsCorrect(r, wire, env);
    } else {
      BodyIsCorrect(r, wire, env);
    }
  }

  lemma PrefixGrows(m: string, a: nat, b: nat)
    requires a <= b <= |m|
    ensures m[..a] + m[a..b] == m[..b]
    ensures m[..a] <= m[..b] <= m
  {}

  lemma HeaderIsCorrect(r: Resp, wire: string, env: SendEnv)
    requires Accounted(r, wire) && r.sending.SENDING_RES_HEAD?
    ensures SliceCorrect(r, wire, SendHeader(r, wire, env), NoFailure(env))
  {
    hide SendBody, Message, SliceCorrect, Accounted, ValidResp;
    HeaderPending(r, wire);
    var n := Taken(env.head, Min(|r.header| - r.sent, CHUNK));
    var wire1 := wire + r.header[r.sent..r.sent + n];
    HeaderBytes(r, wire, n);
    if env.head.pipeBefore {
      Stopped(r, wire, wire, r, Threw, env);
    } else if env.head.pipeAfter {
      Stopped(r, wire, wire1, r, Threw, env);
    } else if n == 0 {
      Stopped(r, wire, wire, r, Done, env);
    } else if r.sent + n < |r.header| {
      HeaderGoesOn(r, wire, n, NoFailure(env));
    } else if r.body.data == "" && r.file.NoFile? {
      HeaderIsAll(r, wire, n, NoFailure(env));
    } else {
      var r2 := r.(sent := |r.header|, sending := SENDING_BODY_STATIC);
      HeaderDone(r, wire, wire1);
      BodyIsCorrect(r2, wire1, env);
      Continued(r, wire, r2, wire1, SendBody(r2, wire1, env), NoFailure(env));
    }
  }

  lemma HeaderPending(r: Resp, wire: string)
    requires Accounted(r, wire) && r.sending.SENDING_RES_HEAD?
    ensures ValidResp(r) && r.sent < |r.header|
  {}

  lemma HeaderBytes(r: Resp, wire: string, n: nat)
    requires Accounted(r, wire) && r.sending.SENDING_RES_HEAD? && r.sent + n <= |r.header|
    ensures |Message(r)| >= |r.header| && r.sent == |wire| < |Message(r)|
    ensures wire + r.header[r.sent..r.sent + n] == Message(r)[..r.sent + n]
    ensures r.sent + n == |r.header| ==> wire + r.header[r.sent..r.sent + n] == r.header
    ensures wire <= Message(r)
  {
    assert Message(r)[r.sent..r.sent + n] == r.header[r.sent..r.sent + n];
    PrefixGrows(Message(r), r.sent, r.sent + n);
  }

  /** A slice that ends early, by a failed call or SIGPIPE. */
  lemma Stopped(r: Resp, wire: string, wire1: string, next: Resp, end: End, env: SendEnv)
    requires wire <= wire1 <= Message(r) && !end.More? && (end.Done? ==> !NoFailure(env))
    ensures SliceCorrect(r, wire, Sent(next, wire1, end), NoFailure(env))
  {}

  lemma HeaderGoesOn(r: Resp, wire: string, n: nat, failureFree: bool)
    requires Accounted(r, wire) && r.sending.SENDING_RES_HEAD? && 0 < n && r.sent + n < |r.header|
    ensures SliceCorrect(r, wire, Sent(r.(sent := r.sent + n), wire + r.header[r.sent..r.sent + n], More), failureFree)
  {
    HeaderBytes(r, wire, n);
    assert Message(r.(sent := r.sent + n)) == Message(r);
  }

  lemma HeaderIsAll(r: Resp, wire: string, n: nat, failureFree: bool)
    requires Accounted(r, wire) && r.sending.SENDING_RES_HEAD? && r.sent + n == |r.header|
    requires r.body.data == "" && r.file.NoFile?
    ensures SliceCorrect(r, wire, Sent(r.(sent := r.sent + n), wire + r.header[r.sent..r.sent + n], Done), failureFree)
  {
    HeaderBytes(r, wire, n);
    assert Message(r) == r.header;
  }

  lemma HeaderDone(r: Resp, before: string, wire: string)
    requires Accounted(r, before) && r.sending.SENDING_RES_HEAD? && wire == r.header
    ensures Accounted(r.(sent := |r.header|, sending := SENDING_BODY_STATIC), wire)
    ensures ValidResp(r.(sent := |r.header|, sending := SENDING_BODY_STATIC))
  {
    assert Message(r)[..|r.header|] == r.header;
  }

  /** What is correct from a later point of the slice is correct from its start. */
  lemma Continued(r: Resp, wire: string, later: Resp, laterWire: string, s: Sent, failureFree: bool)
    requires SliceCorrect(later, laterWire, s, failureFree)
    requires later.header == r.header && later.body == r.body && later.file == r.file
    requires wire <= laterWire && |wire| < |laterWire|
    ensures SliceCorrect(r, wire, s, failureFree)
  {
    hide Accounted;
    assert Message(r) == Message(later);
  }

  lemma BodyIsCorrect(r: Resp, wire: string, env: SendEnv)
    requires Accounted(r, wire) && r.sending.SENDING_BODY_STATIC?
    ensures SliceCorrect(r, wire, SendBody(r, wire, env), NoFailure(env))
  {
    if r.file.ServedFile? {
      FileIsCorrect(r, wire, env);
    } else {
      var r1 := r.(body := Rewound(r.body));
      assert Message(r1) == Message(r);
      StoreIsCorrect(r1, wire, env);
    }
  }

  lemma StoreIsCorrect(r: Resp, wire: string, env: SendEnv)
    requires Accounted(r, wire) && r.sending.SENDING_BODY_STATIC? && r.file.NoFile?
    ensures SliceCorrect(r, wire, SendStore(r, wire, env), NoFailure(env))
  {
    hide SliceCorrect, Message, Accounted, ValidResp;
    StorePending(r, wire);
    var offset := r.sent - |r.header|;
    if env.body.pipeBefore {
      Stopped(r, wire, wire, r, Threw, env);
    } else if offset == |r.body.data| {
      StoreIsOut(r, wire, NoFailure(env));
    } else {
      var n := Taken(env.body, Min(|r.body.data| - offset, CHUNK));
      StoreBytes(r, wire, n);
      if env.body.pipeAfter {
        Stopped(r, wire, wire + r.body.data[offset..offset + n], r, Threw, env);
      } else if n == 0 {
        Stopped(r, wire, wire, r, Done, env);
      } else {
        StoreGoesOn(r, wire, n, NoFailure(env));
      }
    }
  }

  lemma StorePending(r: Resp, wire: string)
    requires Accounted(r, wire) && r.sending.SENDING_BODY_STATIC? && r.file.NoFile?
    ensures ValidResp(r) && r.body.mode.Ram? && |r.header| <= r.sent <= |r.header| + |r.body.data|
    ensures wire <= Message(r)
  {}

  lemma StoreBytes(r: Resp, wire: string, n: nat)
    requires Accounted(r, wire) && r.sending.SENDING_BODY_STATIC? && r.file.NoFile?
    requires r.sent - |r.header| + n <= |r.body.data|
    ensures |Message(r)| == |r.header| + |r.body.data| && |wire| == r.sent
    ensures wire + r.body.data[r.sent - |r.header|..r.sent - |r.header| + n] == Message(r)[..r.sent + n]
  {
    var offset := r.sent - |r.header|;
    assert Message(r)[r.sent..r.sent + n] == r.body.data[offset..offset + n];
    PrefixGrows(Message(r), r.sent, r.sent + n);
  }

  lemma StoreIsOut(r: Resp, wire: string, failureFree: bool)
    requires Accounted(r, wire) && r.sending.SENDING_BODY_STATIC? && r.file.NoFile?
    requires r.sent == |r.header| + |r.body.data|
    ensures SliceCorrect(r, wire, Sent(r, wire, Done), failureFree)
  {
    assert Message(r)[..r.sent] == Message(r);
  }

  lemma StoreGoesOn(r: Resp, wire: string, n: nat, failureFree: bool)
    requires Accounted(r, wire) && r.sending.SENDING_BODY_STATIC? && r.file.NoFile?
    requires 0 < n && r.sent - |r.header| + n <= |r.body.data|
    ensures var r1 := r.(sent := r.sent + n);
            var wire1 := wire + r.body.data[r.sent - |r.header|..r.sent - |r.header| + n];
            SliceCorrect(r, wire, Sent(r1, wire1, if r1.sent == |r.header| + |r.body.data| then Done else More),
                         failureFree)
  {
    StoreBytes(r, wire, n);
    var r1 := r.(sent := r.sent + n);
    assert Message(r1) == Message(r);
    assert Message(r)[..|Message(r)|] == Message(r);
  }

  /** The stream buffer holds file bytes up to the read offset, and the send position is in it. */
  predicate Buffered(r: Resp, wire: string) {
    && Sendable(r) && r.file.ServedFile? && r.sending.SENDING_BODY_STATIC?
    && r.sent <= |Message(r)| && wire == Message(r)[..r.sent]
    && r.streamSent < |r.streamBuf| <= r.file.pos
    && r.streamBuf == r.file.bytes[r.file.pos - |r.streamBuf|..r.file.pos]
    && r.file.pos - |r.streamBuf| + r.streamSent == r.sent - |r.header|
  }

  lemma FileIsCorrect(r: Resp, wire: string, env: SendEnv)
    requires Accounted(r, wire) && r.sending.SENDING_BODY_STATIC? && r.file.ServedFile?
    ensures SliceCorrect(r, wire, SendFile(r, wire, env), NoFailure(env))
  {
    hide SendBuffered;
    var fill := FillCount(r, env);
    assert Message(r)[..|Message(r)|] == Message(r);
    if r.streamBuf != "" || fill > 0 {
      FilledIsBuffered(r, wire, fill);
      BufferedIsCorrect(Filled(r, fill), wire, env);
      hide Accounted, Buffered;
      assert Message(Filled(r, fill)) == Message(r);
    }
  }

  lemma FilledIsBuffered(r: Resp, wire: string, fill: nat)
    requires Accounted(r, wire) && r.sending.SENDING_BODY_STATIC? && r.file.ServedFile?
    requires r.file.pos + fill <= |r.file.bytes| && (r.streamBuf != "" || fill > 0)
    ensures Buffered(Filled(r, fill), wire)
  {}

  lemma BufferedIsCorrect(r: Resp, wire: string, env: SendEnv)
    requires Buffered(r, wire)
    ensures SliceCorrect(r, wire, SendBuffered(r, wire, env), NoFailure(env))
  {
    hide SliceCorrect, Message, Consumed, Accounted;
    var n := Taken(env.body, |r.streamBuf| - r.streamSent);
    var wire1 := wire + r.streamBuf[r.streamSent..r.streamSent + n];
    BufferBytes(r, wire, n);
    if env.body.pipeAfter {
      Stopped(r, wire, wire1, r, Threw, env);
    } else if n == 0 {
      Stopped(r, wire, wire, r.(file := NoFile), Done, env);
    } else {
      ConsumedAccounted(r, wire1, n);
      BufferSent(r, wire, n, env);
    }
  }

  lemma BufferBytes(r: Resp, wire: string, n: nat)
    requires Buffered(r, wire) && r.streamSent + n <= |r.streamBuf|
    ensures |Message(r)| == |r.header| + r.file.size && |wire| == r.sent && r.sent + n <= |Message(r)|
    ensures wire + r.streamBuf[r.streamSent..r.streamSent + n] == Message(r)[..r.sent + n]
    ensures wire <= wire + r.streamBuf[r.streamSent..r.streamSent + n] <= Message(r)
  {
    var offset := r.sent - |r.header|;
    assert r.streamBuf[r.streamSent..r.streamSent + n] == r.file.bytes[offset..offset + n];
    assert Message(r)[r.sent..r.sent + n] == r.file.bytes[offset..offset + n];
    PrefixGrows(Message(r), r.sent, r.sent + n);
  }

  lemma BufferSent(r: Resp, wire: string, n: nat, env: SendEnv)
    requires Buffered(r, wire) && r.streamSent + n <= |r.streamBuf| && n > 0
    requires Accounted(Consumed(r, n), Message(r)[..r.sent + n])
    requires Message(Consumed(r, n)) == Message(r)
    ensures var next := Consumed(r, n);
            var wire1 := wire + r.streamBuf[r.streamSent..r.streamSent + n];
            SliceCorrect(r, wire, if next.sent - |next.header| >= next.file.size
                                  then Sent(next.(file := NoFile), wire1, Done)
                                  else Sent(next, wire1, More), NoFailure(env))
  {
    hide Accounted, Message;
    BufferBytes(r, wire, n);
    assert Message(r)[..|Message(r)|] == Message(r);
  }

  lemma ConsumedAccounted(r: Resp, wire: string, n: nat)
    requires Sendable(r) && r.file.ServedFile? && r.sending.SENDING_BODY_STATIC? && n > 0
    requires r.streamSent + n <= |r.streamBuf| <= r.file.pos
    requires r.streamBuf == r.file.bytes[r.file.pos - |r.streamBuf|..r.file.pos]
    requires r.file.pos - |r.streamBuf| + r.streamSent == r.sent - |r.header|
    requires r.sent + n <= |Message(r)| && wire == Message(r)[..r.sent + n]
    ensures Accounted(Consumed(r, n), wire) && Message(Consumed(r, n)) == Message(r)
    ensures Consumed(r, n).file == r.file && Consumed(r, n).body == r.body && Consumed(r, n).header == r.header
    ensures Consumed(r, n).sent == r.sent + n
  {
    var s := Consumed(r, n);
    assert s.file.bytes[s.file.pos..s.file.pos] == "";
  }

  // ---------------------------------------------------------------- whole runs

  /** A slice that asks for another one leaves a response that can be sent on. */
  lemma SliceKeepsValid(r: Resp, wire: string, env: SendEnv)
    requires ValidResp(r)
    ensures var s := SendSlice(r, wire, env); s.end.More? ==> ValidResp(s.resp)
  {
    if r.sending.SENDING_RES_HEAD? {
      var s := SendHeaderBytes(r, wire, env.head);
      if s.end.Done? && s.resp.sent != r.sent {
        BodyKeepsValid(s.resp.(sending := SENDING_BODY_STATIC), s.wire, env);
      }
    } else {
      BodyKeepsValid(r, wire, env);
    }
  }

  lemma BodyKeepsValid(r: Resp, wire: string, env: SendEnv)
    requires ValidResp(r) && r.sending.SENDING_BODY_STATIC?
    ensures var s := SendBody(r, wire, env); s.end.More? ==> ValidResp(s.resp)
  {
    hide SendStore, FillCount, Filled, SendBuffered;
    if r.file.ServedFile? {
      var fill := FillCount(r, env);
      FilledKeepsValid(r, fill);
      BufferedKeepsValid(Filled(r, fill), wire, env);
    } else {
      StoreKeepsValid(r.(body := Rewound(r.body)), wire, env);
    }
  }

  lemma BufferedKeepsValid(r: Resp, wire: string, env: SendEnv)
    requires ValidResp(r) && r.sending.SENDING_BODY_STATIC? && r.file.ServedFile?
    ensures var s := SendBuffered(r, wire, env); s.end.More? ==> ValidResp(s.resp)
  {}

  lemma StoreKeepsValid(r: Resp, wire: string, env: SendEnv)
    requires ValidResp(r) && r.sending.SENDING_BODY_STATIC? && r.file.NoFile?
    ensures var s := SendStore(r, wire, env); s.end.More? ==> ValidResp(s.resp)
  {
    hide SendSpooled, Refilled;
    if r.body.mode.File? {
      RefilledKeepsValid(r);
      SpooledKeepsValid(Refilled(r), wire, env);
    }
  }

  lemma RefilledKeepsValid(r: Resp)
    requires ValidResp(r) && r.sending.SENDING_BODY_STATIC? && r.file.NoFile? && r.body.mode.File?
    ensures var r1 := Refilled(r);
            ValidResp(r1) && r1.sending.SENDING_BODY_STATIC? && r1.file.NoFile? && r1.body.mode.File?
  {}

  lemma SpooledKeepsValid(r: Resp, wire: string, env: SendEnv)
    requires ValidResp(r) && r.sending.SENDING_BODY_STATIC? && r.file.NoFile? && r.body.mode.File?
    ensures var s := SendSpooled(r, wire, env); s.end.More? ==> ValidResp(s.resp)
  {}

  lemma FilledKeepsValid(r: Resp, fill: nat)
    requires ValidResp(r) && r.file.ServedFile? && r.file.pos + fill <= |r.file.bytes|
    ensures ValidResp(Filled(r, fill)) && Filled(r, fill).file.ServedFile?
    ensures Filled(r, fill).sending == r.sending
  {}

  /** Slices are sent until one does not ask for more or the events run out. */
  function SendAll(r: Resp, wire: string, envs: seq<SendEnv>): Sent
    requires ValidResp(r)
    decreases |envs|
  {
    if envs == [] then Sent(r, wire, More)
    else
      SliceKeepsValid(r, wire, envs[0]);
      var s := SendSlice(r, wire, envs[0]);
      if s.end.More? then SendAll(s.resp, s.wire, envs[1..]) else s
  }

  predicate FailureFree(envs: seq<SendEnv>) {
    forall i :: 0 <= i < |envs| ==> NoFailure(envs[i])
  }

  /** Over any run of slices the client has received a prefix of header and body. Unless a call
      failed or SIGPIPE was seen, the run reports completion exactly when all of it has arrived. */
  lemma {:induction false} WireIsPrefix(r: Resp, wire: string, envs: seq<SendEnv>)
    requires Accounted(r, wire) && |wire| < |Message(r)|
    ensures var s := SendAll(r, wire, envs);
            && wire <= s.wire && s.wire <= Message(r)
            && (FailureFree(envs) && !s.end.Threw? ==> (s.end.Done? <==> s.wire == Message(r)))
    decreases |envs|
  {
    hide SendSlice, Message;
    if envs != [] {
      SliceIsCorrect(r, wire, envs[0]);
      var s := SendSlice(r, wire, envs[0]);
      if s.end.More? {
        WireIsPrefix(s.resp, s.wire, envs[1..]);
        assert FailureFree(envs) ==> FailureFree(envs[1..]);
      }
    }
  }

  /** Completion comes: a run of as many good slices as there are bytes left cannot end in `More`. */
  lemma {:induction false} GoodRunCompletes(r: Resp, wire: string, envs: seq<SendEnv>)
    requires Accounted(r, wire) && |wire| < |Message(r)|
    requires |envs| >= |Message(r)| - |wire|
    ensures !SendAll(r, wire, envs).end.More?
    decreases |envs|
  {
    hide SendSlice, Message;
    SliceIsCorrect(r, wire, envs[0]);
    var s := SendSlice(r, wire, envs[0]);
    if s.end.More? {
      GoodRunCompletes(s.resp, s.wire, envs[1..]);
    }
  }

  /** From a response that has just been built: the client receives a prefix of header and body, a
      run without failures reports completion exactly when all of it is out, and such a run of as
      many slices as there are bytes does complete. */
  lemma BuiltResponseArrives(r: Resp, envs: seq<SendEnv>)
    requires JustBuilt(r)
    ensures var s := SendAll(r, "", envs);
            && s.wire <= Message(r)
            && (FailureFree(envs) && !s.end.Threw? ==>
                  (s.end.Done? <==> s.wire == Message(r)) && (|envs| >= |Message(r)| ==> s.wire == Message(r)))
  {
    hide SendSlice;
    JustBuiltAccounted(r);
    WireIsPrefix(r, "", envs);
    if |envs| >= |Message(r)| {
      GoodRunCompletes(r, "", envs);
    }
  }

  // ---------------------------------------------------------------- the size of a slice

  /** A slice sends at most 16384 bytes of the header and at most 16384 of the body, and buffers no more
      than that of a file. */
  lemma SliceBound(r: Resp, wire: string, env: SendEnv)
    requires ValidResp(r) && |r.streamBuf| <= 16384
    ensures var s := SendSlice(r, wire, env);
            && |s.wire| <= |wire| + (if r.sending.SENDING_RES_HEAD? then 32768 else 16384)
            && |s.resp.streamBuf| <= 16384
  {
    hide SendBody;
    if r.sending.SENDING_BODY_STATIC? {
      BodyBound(r, wire, env);
    } else {
      var head := SendHeaderBytes(r, wire, env.head);
      if head.end.Done? && head.resp.sent != r.sent && !(r.body.data == "" && r.file.NoFile?) {
        BodyBound(head.resp.(sending := SENDING_BODY_STATIC), head.wire, env);
      }
    }
  }

  lemma BodyBound(r: Resp, wire: string, env: SendEnv)
    requires ValidResp(r) && r.sending.SENDING_BODY_STATIC? && |r.streamBuf| <= 16384
    ensures var s := SendBody(r, wire, env); |s.wire| <= |wire| + 16384 && |s.resp.streamBuf| <= 16384
  {
    if r.file.ServedFile? {
      hide Taken;
      var fill := FillCount(r, env);
      if r.streamBuf != "" || fill > 0 {
        assert |Filled(r, fill).streamBuf| <= 16384;
      }
    } else if r.body.mode.File? {
      var r0 := r.(body := Rewound(r.body));
      assert |ReadBytes(r0.body, CHUNK)| <= 16384;
      hide ReadBytes, AfterRead;
    }
  }

  // ---------------------------------------------------------------- SIGPIPE

  /** SIGPIPE is noticed around no call of the slice. */
  predicate Quiet(env: SendEnv) {
    && !env.head.pipeBefore && !env.head.pipeAfter && !env.body.pipeBefore && !env.body.pipeAfter
  }

  predicate AllQuiet(envs: seq<SendEnv>) {
    forall i :: 0 <= i < |envs| ==> Quiet(envs[i])
  }

  /** Only SIGPIPE makes a slice throw, whatever the response is. */
  lemma QuietNeverThrows(r: Resp, wire: string, env: SendEnv)
    requires ValidResp(r) && Quiet(env)
    ensures !SendSlice(r, wire, env).end.Threw?
  {
    hide Refilled, Filled, Taken, Consumed;
  }

  /** And it does: noticed before a call, nothing more goes out; noticed after it, what the call took
      has gone out. */
  lemma NoticedThrows(r: Resp, wire: string, env: SendEnv)
    requires ValidResp(r)
    ensures var s := SendSlice(r, wire, env);
            if r.sending.SENDING_RES_HEAD? then
              && (env.head.pipeBefore ==> s.end.Threw? && s.wire == wire)
              && (!env.head.pipeBefore && env.head.pipeAfter ==>
                    s.end.Threw? && s.wire == wire + r.header[r.sent..|s.wire| - |wire| + r.sent])
            else
              && (env.body.pipeBefore ==> s.end.Threw? && s.wire == wire)
              && (!env.body.pipeBefore && env.body.pipeAfter && s.wire != wire ==> s.end.Threw?)
  {
    hide Refilled, Filled, Consumed;
  }

  lemma {:induction false} QuietRun(r: Resp, wire: string, envs: seq<SendEnv>)
    requires ValidResp(r) && AllQuiet(envs)
    ensures !SendAll(r, wire, envs).end.Threw?
    decreases |envs|
  {
    hide SendSlice;
    if envs != [] {
      QuietNeverThrows(r, wire, envs[0]);
      SliceKeepsValid(r, wire, envs[0]);
      var s := SendSlice(r, wire, envs[0]);
      if s.end.More? {
        QuietRun(s.resp, s.wire, envs[1..]);
      }
    }
  }

  /** Without failures and SIGPIPE, as many slices as there are bytes left bring out all of them. */
  lemma QuietRunCompletes(r: Resp, wire: string, envs: seq<SendEnv>)
    requires Accounted(r, wire) && |wire| < |Message(r)| && |envs| >= |Message(r)| - |wire|
    requires FailureFree(envs) && AllQuiet(envs)
    ensures var s := SendAll(r, wire, envs); s.end.Done? && s.wire == Message(r)
  {
    hide SendSlice, Message;
    WireIsPrefix(r, wire, envs);
    GoodRunCompletes(r, wire, envs);
    QuietRun(r, wire, envs);
  }

  /** So a response that has just been built, in memory or served from a file, arrives whole. */
  lemma BuiltResponseCompletes(r: Resp, envs: seq<SendEnv>)
    requires JustBuilt(r) && |envs| >= |Message(r)| && FailureFree(envs) && AllQuiet(envs)
    ensures var s := SendAll(r, "", envs); s.end.Done? && s.wire == Message(r)
  {
    hide SendSlice;
    JustBuiltAccounted(r);
    QuietRunCompletes(r, "", envs);
  }
}
