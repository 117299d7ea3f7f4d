/** The upload write loop: what is in the uploaded file after any number of calls. */
module UploadWrites {
  import opened ByteStrings
  import opened ByteStore
  import opened ResponseModel

  /** How far the upload has got in the request body. */
  function Written(r: Resp, body: Store): nat {
    if body.mode.Ram? then r.postPos else body.cursor
  }

  /** An upload in progress: the file holds the body up to the write position. */
  predicate Uploading(r: Resp, body: Store, out: string) {
    && r.phase.BUILD_POST_WRITING? && Valid(body) && InStep(body, false)
    && Written(r, body) <= |body.data| && out == body.data[..Written(r, body)]
  }

  /** The file never strays from the body and only grows; an unfinished call wrote something; a
      finished one reports 201 exactly when the file is complete. */
  predicate PostCorrect(body: Store, out: string, p: Posted) {
    && out <= p.out && p.out <= body.data && p.body.data == body.data && Valid(p.body)
    && (p.end.More? ==> Uploading(p.resp, p.body, p.out) && |out| < |p.out|)
    && (p.end.Done? ==> p.resp.status in {201, 500} && (p.resp.status == 201 <==> p.out == body.data))
  }

  lemma TakeMore(data: string, a: nat, b: nat)
    requires a <= b <= |data|
    ensures data[..a] + data[a..b] == data[..b]
    ensures data[..a] <= data[..b] <= data
  {}

  lemma PostIsCorrect(r: Resp, body: Store, out: string, write: Call, pages: Pages)
    requires Uploading(r, body, out)
    ensures PostCorrect(body, out, ContinuePost(r, body, out, write, pages))
  {
    var at := Written(r, body);
    assert body.data[..|body.data|] == body.data;
    TakeMore(body.data, at, |body.data|);
    if body.mode.Ram? {
      if at < |body.data| {
        TakeMore(body.data, at, at + Taken(write, Min(|body.data| - at, CHUNK)));
      }
    } else {
      SpooledPostIsCorrect(r, body, out, write, pages);
    }
  }

  lemma SpooledPostIsCorrect(r: Resp, body: Store, out: string, write: Call, pages: Pages)
    requires Uploading(r, body, out) && body.mode.File?
    ensures PostCorrect(body, out, ContinuePost(r, body, out, write, pages))
  {
    var piece := ReadBytes(body, CHUNK);
    var n := Taken(write, |piece|);
    var at := body.cursor;
    assert piece == body.data[at..at + |piece|];
    assert piece == "" ==> at == |body.data|;
    assert AfterRead(body, CHUNK) == body.(cursor := at + |piece|, osPos := at + |piece|);
    hide ReadBytes, AfterRead, Taken;
    assert piece[..n] == body.data[at..at + n];
    TakeMore(body.data, at, at + n);
    TakeMore(body.data, at, at + |piece|);
    assert body.data[..|body.data|] == body.data;
    assert piece[..|piece|] == piece;
  }

  /** Calls are made until one does not ask to be called again. */
  function PostAll(r: Resp, body: Store, out: string, writes: seq<Call>, pages: Pages): Posted
    requires Uploading(r, body, out)
    decreases |writes|
  {
    if writes == [] then Posted(r, body, out, More)
    else
      PostIsCorrect(r, body, out, writes[0], pages);
      var p := ContinuePost(r, body, out, writes[0], pages);
      if p.end.More? then PostAll(p.resp, p.body, p.out, writes[1..], pages) else p
  }

  /** Over any run of calls with arbitrary short and failing writes the uploaded file is a prefix
      of the request body, and "201 Created" means it is the whole body. */
  lemma {:induction false} UploadIsPrefix(r: Resp, body: Store, out: string, writes: seq<Call>, pages: Pages)
    requires Uploading(r, body, out)
    ensures PostCorrectRun(body, out, PostAll(r, body, out, writes, pages))
    decreases |writes|
  {
    hide ContinuePost;
    if writes != [] {
      PostIsCorrect(r, body, out, writes[0], pages);
      var p := ContinuePost(r, body, out, writes[0], pages);
      if p.end.More? {
        UploadIsPrefix(p.resp, p.body, p.out, writes[1..], pages);
      }
    } else {
      assert body.data[..|body.data|] == body.data;
    }
  }

  predicate PostCorrectRun(body: Store, out: string, p: Posted) {
    && out <= p.out && p.out <= body.data && p.body.data == body.data
    && (p.end.Done? ==> (p.resp.status == 201 <==> p.out == body.data))
  }

  lemma PostKeepsValid(r: Resp, body: Store, out: string, write: Call, pages: Pages)
    requires Valid(body)
    ensures Valid(ContinuePost(r, body, out, write, pages).body)
  {}

  /** Starting an upload establishes the books, whatever mode the body is stored in. */
  lemma StartedUpload(r: Resp, body: Store, out: string, write: Call, pages: Pages)
    requires Valid(body)
    ensures var started := if body.mode.Ram? then body else Rewound(body);
            Uploading(r.(postPos := 0, phase := BUILD_POST_WRITING), started, "") &&
            PostCorrect(body, "", StartPost(r, body, out, true, write, pages))
  {
    hide ContinuePost;
    var started := if body.mode.Ram? then body else Rewound(body);
    assert started.data[..0] == "";
    PostIsCorrect(r.(postPos := 0, phase := BUILD_POST_WRITING), started, "", write, pages);
  }

  // ---------------------------------------------------------------- when nothing fails

  /** The write goes through: no SIGPIPE, and something is taken; of a spooled body, everything,
      because a short write of one cannot be resumed. */
  predicate Accepts(write: Call, body: Store) {
    !write.pipeBefore && !write.pipeAfter && write.result >= if body.mode.Ram? then 1 else CHUNK
  }

  lemma AcceptedPostGoesOn(r: Resp, body: Store, out: string, write: Call, pages: Pages)
    requires Uploading(r, body, out) && Accepts(write, body)
    ensures var p := ContinuePost(r, body, out, write, pages);
            (p.end.More? || (p.end.Done? && p.resp.status == 201)) && (p.body.mode.Ram? <==> body.mode.Ram?)
  {
    if body.mode.File? {
      assert |ReadBytes(body, CHUNK)| <= CHUNK;
    }
  }

  /** If every write goes through, the upload ends with "201 Created" and the whole body in the file,
      after no more calls than there are bytes left, and one. */
  lemma {:induction false} AcceptedUploadCompletes(r: Resp, body: Store, out: string, writes: seq<Call>, pages: Pages)
    requires Uploading(r, body, out) && forall i :: 0 <= i < |writes| ==> Accepts(writes[i], body)
    requires |writes| > |body.data| - |out|
    ensures var p := PostAll(r, body, out, writes, pages);
            p.end.Done? && p.resp.status == 201 && p.out == body.data
    decreases |writes|
  {
    hide ContinuePost, Taken;
    PostIsCorrect(r, body, out, writes[0], pages);
    AcceptedPostGoesOn(r, body, out, writes[0], pages);
    var p := ContinuePost(r, body, out, writes[0], pages);
    if p.end.More? {
      AcceptedUploadCompletes(p.resp, p.body, p.out, writes[1..], pages);
    }
  }
}
