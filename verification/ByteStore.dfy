/** The two-mode byte store as a value, and the plain tape (bytes and a cursor) it stands for.
    In file mode one descriptor carries a single offset, moved by reads and by appending writes
    alike, beside the store's own cursor. */
module ByteStore {
  import opened ByteStrings

  datatype Mode = Ram | File

  /** `osPos` is the descriptor's offset; it has no meaning in RAM mode and is 0 there. */
  datatype Store = Store(mode: Mode, limit: nat, data: string, cursor: nat, osPos: nat)

  const BUFFER_LIMIT: nat := 1024 * 1024

  predicate Valid(s: Store) {
    && s.cursor <= |s.data| && s.osPos <= |s.data|
    && (s.mode.Ram? ==> |s.data| <= s.limit && s.osPos == 0)
  }

  function Empty(limit: nat): Store {
    Store(Ram, limit, "", 0, 0)
  }

  function Appended(s: Store, d: string): Store {
    if d == "" then s
    else if s.mode.Ram? && |s.data| + |d| <= s.limit then s.(data := s.data + d)
    else s.(mode := File, data := s.data + d, osPos := |s.data + d|)
  }

  function Spilled(s: Store): Store {
    if s.mode.File? then s else s.(mode := File, osPos := |s.data|)
  }

  function Rewound(s: Store): Store {
    s.(cursor := 0, osPos := 0)
  }

  function Copied(s: Store): Store {
    s.(cursor := 0, osPos := if s.mode.File? then |s.data| else 0)
  }

  function Min(a: nat, b: nat): nat {
    if a <= b then a else b
  }

  /** Where a read takes its bytes from. */
  function ReadFrom(s: Store): nat {
    if s.mode.Ram? then s.cursor else s.osPos
  }

  function ReadBytes(s: Store, n: nat): string
    requires Valid(s)
  {
    var from := ReadFrom(s);
    s.data[from..from + Min(Min(n, |s.data| - s.cursor), |s.data| - from)]
  }

  function AfterRead(s: Store, n: nat): Store
    requires Valid(s)
  {
    var count := |ReadBytes(s, n)|;
    s.(cursor := s.cursor + count, osPos := if s.mode.File? then s.osPos + count else 0)
  }

  // ---------------------------------------------------------------- the abstraction

  datatype Tape = Tape(data: string, cursor: nat)

  function TapeOf(s: Store): Tape {
    Tape(s.data, s.cursor)
  }

  function TapeRead(t: Tape, n: nat): string
    requires t.cursor <= |t.data|
  {
    t.data[t.cursor..t.cursor + Min(n, |t.data| - t.cursor)]
  }

  datatype Op =
    | Append(bytes: string)
    | Read(count: nat)
    | Reset
    | SwitchToFile
    | ReplaceByCopy
    | AssignFrom(other: Store)
    | Clear

  predicate ValidOp(op: Op) {
    op.AssignFrom? ==> Valid(op.other)
  }

  /** What a caller sees of one operation: the bytes it read and the size afterwards. */
  datatype Observation = Observation(read: string, size: nat)

  function Apply(s: Store, op: Op): (r: (Store, string))
    requires Valid(s) && ValidOp(op)
    ensures Valid(r.0)
  {
    match op
    case Append(d) => (Appended(s, d), "")
    case Read(n) => (AfterRead(s, n), ReadBytes(s, n))
    case Reset => (Rewound(s), "")
    case SwitchToFile => (Spilled(s), "")
    case ReplaceByCopy => (Copied(s), "")
    case AssignFrom(other) => (Copied(other), "")
    case Clear => (Empty(s.limit), "")
  }

  function ApplyToTape(t: Tape, op: Op): (r: (Tape, string))
    requires t.cursor <= |t.data|
    ensures r.0.cursor <= |r.0.data|
  {
    match op
    case Append(d) => (t.(data := t.data + d), "")
    case Read(n) => (t.(cursor := t.cursor + |TapeRead(t, n)|), TapeRead(t, n))
    case Reset => (t.(cursor := 0), "")
    case SwitchToFile => (t, "")
    case ReplaceByCopy => (t.(cursor := 0), "")
    case AssignFrom(other) => (Tape(other.data, 0), "")
    case Clear => (Tape("", 0), "")
  }

  predicate ValidOps(ops: seq<Op>) {
    forall i :: 0 <= i < |ops| ==> ValidOp(ops[i])
  }

  function Observe(s: Store, ops: seq<Op>): seq<Observation>
    requires Valid(s) && ValidOps(ops)
    decreases |ops|
  {
    if ops == [] then []
    else
      var (next, bytes) := Apply(s, ops[0]);
      [Observation(bytes, |next.data|)] + Observe(next, ops[1..])
  }

  function ObserveTape(t: Tape, ops: seq<Op>): seq<Observation>
    requires t.cursor <= |t.data|
    decreases |ops|
  {
    if ops == [] then []
    else
      var (next, bytes) := ApplyToTape(t, ops[0]);
      [Observation(bytes, |next.data|)] + ObserveTape(next, ops[1..])
  }

  /** Whether the descriptor's offset may have been moved away from the cursor since the last
      reset: by a write, a spill or a copy that leaves the store in file mode. */
  function StaleAfter(s: Store, op: Op, stale: bool): bool
    requires Valid(s) && ValidOp(op)
  {
    match op
    case Append(d) => stale || (d != "" && Appended(s, d).mode.File?)
    case Read(_) => stale
    case Reset => false
    case SwitchToFile => stale || s.mode.Ram?
    case ReplaceByCopy => s.mode.File?
    case AssignFrom(other) => other.mode.File?
    case Clear => false
  }

  /** In file mode a reset separates every write, spill or copy from the next read. */
  predicate Disciplined(s: Store, ops: seq<Op>, stale: bool)
    requires Valid(s) && ValidOps(ops)
    decreases |ops|
  {
    ops == [] ||
    ((ops[0].Read? && s.mode.File? ==> !stale) &&
     Disciplined(Apply(s, ops[0]).0, ops[1..], StaleAfter(s, ops[0], stale)))
  }

  predicate InStep(s: Store, stale: bool) {
    s.mode.File? && !stale ==> s.osPos == s.cursor
  }

  /** Refinement: a disciplined caller cannot tell the store from the tape. */
  lemma {:induction false} StoreRefinesTape(s: Store, ops: seq<Op>, stale: bool)
    requires Valid(s) && ValidOps(ops) && Disciplined(s, ops, stale) && InStep(s, stale)
    ensures Observe(s, ops) == ObserveTape(TapeOf(s), ops)
    decreases |ops|
  {
    if ops != [] {
      var next := Apply(s, ops[0]).0;
      StepRefines(s, ops[0], stale);
      StoreRefinesTape(next, ops[1..], StaleAfter(s, ops[0], stale));
    }
  }

  lemma StepRefines(s: Store, op: Op, stale: bool)
    requires Valid(s) && ValidOp(op) && InStep(s, stale)
    requires op.Read? && s.mode.File? ==> !stale
    ensures var (next, bytes) := Apply(s, op);
            ApplyToTape(TapeOf(s), op) == (TapeOf(next), bytes) &&
            InStep(next, StaleAfter(s, op, stale))
  {
    assert s.data + "" == s.data;
  }

  /** Whether and when the spill to disk happens is invisible: stores with different limits that
      hold the same tape observe the same. */
  lemma SpillIsInvisible(s: Store, t: Store, ops: seq<Op>)
    requires Valid(s) && Valid(t) && ValidOps(ops) && TapeOf(s) == TapeOf(t)
    requires InStep(s, false) && InStep(t, false)
    requires Disciplined(s, ops, false) && Disciplined(t, ops, false)
    ensures Observe(s, ops) == Observe(t, ops)
  {
    StoreRefinesTape(s, ops, false);
    StoreRefinesTape(t, ops, false);
  }

  predicate ReadsLikeTape(s: Store, data: string, n: nat)
    requires Valid(s) && |data| == |s.data|
  {
    ReadBytes(s.(data := data), n) == TapeRead(Tape(data, s.cursor), n)
  }

  /** The discipline cannot be relaxed: in file mode a read is right for all stored bytes if and
      only if the offset is at the cursor or there is nothing to read. */
  lemma ReadIsRightIff(s: Store, n: nat)
    requires Valid(s) && s.mode.File?
    ensures (forall data: string :: |data| == |s.data| ==> ReadsLikeTape(s, data, n))
            <==> s.osPos == s.cursor || n == 0 || s.cursor == |s.data|
  {
    if s.osPos != s.cursor && n > 0 && s.cursor < |s.data| {
      var data := seq(|s.data|, i => if i == s.cursor then 'x' else 'o');
      assert TapeRead(Tape(data, s.cursor), n)[0] == 'x';
      if s.osPos < |data| {
        assert ReadBytes(s.(data := data), n)[0] == data[s.osPos];
      }
      assert !ReadsLikeTape(s, data, n);
    }
  }

  /** The stale offset at its input: a byte that is appended in file mode and read without a reset is
      not found. */
  lemma UnreadAppend()
    ensures var ops := [Append("x"), Read(1)];
            && Observe(Empty(0), ops) == [Observation("", 1), Observation("", 1)]
            && ObserveTape(TapeOf(Empty(0)), ops) == [Observation("", 1), Observation("x", 1)]
  {
    var ops := [Append("x"), Read(1)];
    assert ops[1..] == [Read(1)] && [Read(1)][1..] == [];
    var s := Appended(Empty(0), "x");
    assert s == Store(File, 0, "x", 0, 1);
    assert ReadBytes(s, 1) == "";
    assert Observe(s, [Read(1)]) == [Observation("", 1)] + Observe(AfterRead(s, 1), []);
    var t := Tape("x", 0);
    assert "" + "x" == "x" && TapeRead(t, 1) == "x";
    assert ObserveTape(t, [Read(1)]) == [Observation("x", 1)] + ObserveTape(Tape("x", 1), []);
  }

  /** So is one that was appended in memory and moved to the file without a reset. */
  lemma UnreadSpill()
    ensures var ops := [Append("x"), SwitchToFile, Read(1)];
            && Observe(Empty(1), ops) == [Observation("", 1), Observation("", 1), Observation("", 1)]
            && ObserveTape(TapeOf(Empty(1)), ops) == [Observation("", 1), Observation("", 1), Observation("x", 1)]
  {
    assert "" + "x" == "x";
    UnreadAfter(Empty(1), SwitchToFile);
  }

  /** And so is one that was copied with its file. */
  lemma UnreadCopy()
    ensures var ops := [Append("x"), ReplaceByCopy, Read(1)];
            && Observe(Empty(0), ops) == [Observation("", 1), Observation("", 1), Observation("", 1)]
            && ObserveTape(TapeOf(Empty(0)), ops) == [Observation("", 1), Observation("", 1), Observation("x", 1)]
  {
    assert "" + "x" == "x";
    UnreadAfter(Empty(0), ReplaceByCopy);
  }

  lemma UnreadAfter(s: Store, op: Op)
    requires Valid(s) && s.data == "" && s.cursor == 0 && (op == SwitchToFile || op == ReplaceByCopy)
    requires var s1 := Apply(s, Append("x")).0;
             var t := Apply(s1, op).0;
             s1.data == "x" && s1.cursor == 0 && t.data == "x" && t.mode.File? && t.cursor == 0 && t.osPos == 1
    ensures var ops := [Append("x"), op, Read(1)];
            && Observe(s, ops) == [Observation("", 1), Observation("", 1), Observation("", 1)]
            && ObserveTape(TapeOf(s), ops) == [Observation("", 1), Observation("", 1), Observation("x", 1)]
  {
    var ops := [Append("x"), op, Read(1)];
    assert ops[1..] == [op, Read(1)] && ops[1..][1..] == [Read(1)];
    var s1 := Apply(s, Append("x")).0;
    var t := Apply(s1, op).0;
    UnreadByte(t);
    UnreadTape();
    assert ApplyToTape(TapeOf(s), Append("x")) == (Tape("x", 0), "");
    assert ApplyToTape(Tape("x", 0), op) == (Tape("x", 0), "");
    hide Apply, ApplyToTape;
    StepRefinesQuietly(s, s1, t, op);
  }

  lemma StepRefinesQuietly(s: Store, s1: Store, t: Store, op: Op)
    requires Valid(s) && ValidOp(op) && Valid(s1) && Valid(t)
    requires Apply(s, Append("x")) == (s1, "") && Apply(s1, op) == (t, "") && |s1.data| == 1 && |t.data| == 1
    requires ApplyToTape(TapeOf(s), Append("x")) == (Tape("x", 0), "")
    requires ApplyToTape(Tape("x", 0), op) == (Tape("x", 0), "")
    ensures Observe(s, [Append("x"), op, Read(1)]) == [Observation("", 1), Observation("", 1)] + Observe(t, [Read(1)])
    ensures ObserveTape(TapeOf(s), [Append("x"), op, Read(1)]) ==
              [Observation("", 1), Observation("", 1)] + ObserveTape(Tape("x", 0), [Read(1)])
  {
    hide Apply, ApplyToTape;
    var ops := [Append("x"), op, Read(1)];
    assert ops[1..] == [op, Read(1)] && [op, Read(1)][1..] == [Read(1)];
    assert Observe(s1, [op, Read(1)]) == [Observation("", 1)] + Observe(t, [Read(1)]);
    assert ObserveTape(Tape("x", 0), [op, Read(1)]) == [Observation("", 1)] + ObserveTape(Tape("x", 0), [Read(1)]);
  }

  lemma UnreadByte(s: Store)
    requires Valid(s) && s.data == "x" && s.mode.File? && s.cursor == 0 && s.osPos == 1
    ensures Observe(s, [Read(1)]) == [Observation("", 1)]
  {
    assert ReadBytes(s, 1) == "" && [Read(1)][1..] == [];
    assert Observe(s, [Read(1)]) == [Observation("", 1)] + Observe(AfterRead(s, 1), []);
  }

  lemma UnreadTape()
    ensures ObserveTape(Tape("x", 0), [Read(1)]) == [Observation("x", 1)]
  {
    assert TapeRead(Tape("x", 0), 1) == "x" && [Read(1)][1..] == [];
    assert ObserveTape(Tape("x", 0), [Read(1)]) == [Observation("x", 1)] + ObserveTape(Tape("x", 1), []);
  }
}
