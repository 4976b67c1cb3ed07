/** One byte ring of a slot, and the loop bodies of `ringWrite` and `ringRead`
    cut into single loads, single byte copies and single stores. */
module VgiRing {
  import opened Numbers
  import opened Wrappers
  import opened VgiLayout

  /** The lanes `w`, `r` and `closed` and the data bytes are shared memory. The
      remaining fields are history: every byte published and every byte taken
      since the claim was published, and how much had been published when the
      ring was first closed. */
  datatype Ring = Ring(
    w: int, r: int, closed: int, data: seq<Byte>,
    sent: seq<Byte>, recv: seq<Byte>, closedAt: Option<nat>)

  // Where the i-th byte of a copy at stream position p goes: the first
  // `Min(k, cap - pos)` bytes fill the ring to its end, the rest start over at 0.
  function RingIndex(p: int, k: int, cap: int, i: int): int
    requires cap > 0
  {
    var pos := p % cap;
    var first := Min(k, cap - pos);
    if i < first then pos + i else i - first
  }

  // Typed-array accesses: out-of-range indices are ignored, slices are clamped.
  function Poke(data: seq<Byte>, i: int, b: Byte): seq<Byte> {
    if 0 <= i < |data| then data[i := b] else data
  }

  function Peek(data: seq<Byte>, i: int): Byte {
    if 0 <= i < |data| then data[i] else 0
  }

  // The byte at stream position p.
  function Cell(data: seq<Byte>, p: nat): Byte
    requires |data| > 0
  {
    data[p % |data|]
  }

  function Subarray(s: seq<Byte>, lo: int, hi: int): seq<Byte> {
    if 0 <= lo <= hi <= |s| then s[lo..hi] else []
  }

  // -------------------------------------------------------------------------
  // Writing

  datatype WritePc =
    | WHead                            // about to load the write lane
    | WLoadRead(w: int)                // about to load the read lane
    | WCopy(w: int, k: int, i: int)    // i of k bytes copied; publishes when i == k
    | WEnd                             // the body is over: published, or the ring was full

  datatype Write = Write(src: seq<Byte>, off: int, pc: WritePc)

  function WriteStep(ring: Ring, cap: int, wr: Write): (Ring, Write)
    requires cap > 0
  {
    match wr.pc
    case WHead => (ring, wr.(pc := WLoadRead(ring.w)))
    case WLoadRead(w) =>
      var free := cap - (w - ring.r);
      if free == 0 then (ring, wr.(pc := WEnd))
      else (ring, wr.(pc := WCopy(w, Min(free, |wr.src| - wr.off), 0)))
    case WCopy(w, k, i) =>
      if i < k then
        (ring.(data := Poke(ring.data, RingIndex(w, k, cap, i), Peek(wr.src, wr.off + i))),
         wr.(pc := WCopy(w, k, i + 1)))
      else
        (ring.(w := ToInt32(w + k), sent := ring.sent + Subarray(wr.src, wr.off, wr.off + k)),
         wr.(off := wr.off + k, pc := WEnd))
    case WEnd => (ring, wr)
  }

  // The 32-bit lanes are never reduced, so a stream must stay below 2^31 bytes.
  predicate WriteFits(ring: Ring, wr: Write) {
    wr.pc.WCopy? && wr.pc.i >= wr.pc.k ==> |ring.sent| + wr.pc.k < TWO31
  }

  // -------------------------------------------------------------------------
  // Reading

  // `LibClient` is stubRead of vgi-sab-ring.js, which waits and starts over;
  // `StubFirst` and `StubSecond` are the two tries of the js-stubs read, which
  // then answers WOULD_BLOCK; `WorkerSide` is workerRead.
  datatype ReadKind = LibClient | StubFirst | StubSecond | WorkerSide

  /** `Eos` also records how many bytes had been published when the write lane was
      loaded, and, at the load of the closed lane, how many had been taken and how
      many had been published when the ring was closed. */
  datatype ReadResult =
    | Bytes(bytes: seq<Byte>)
    | Eos(seen: int, got: nat, closedAt: Option<nat>)
    | Retry
    | WouldBlock

  datatype ReadPc =
    | RHead                                  // about to load the write lane
    | RLoadRead(w: int)                      // about to load the read lane
    | RReload(r: int)                        // second try: about to reload the write lane
    | RClosed(w: int, r: int)                // empty: about to load the closed lane
    | RState(w: int, r: int, token: int, eos: ReadResult)  // about to compare it with STATE
    | RCopy(r: int, k: int, dst: seq<Byte>)  // |dst| of k bytes copied
    | REnd(result: ReadResult)

  datatype Read = Read(n: int, kind: ReadKind, pc: ReadPc)

  function NotEos(rd: Read, r: int): Read {
    match rd.kind
    case StubFirst => rd.(kind := StubSecond, pc := RReload(r))
    case StubSecond => rd.(pc := REnd(WouldBlock))
    case _ => rd.(pc := REnd(Retry))
  }

  function AfterPositions(rd: Read, w: int, r: int): Read {
    if w - r == 0 then rd.(pc := RClosed(w, r))
    else rd.(pc := RCopy(r, Min(w - r, rd.n), []))
  }

  function ReadStep(ring: Ring, state: int, cap: int, rd: Read): (Ring, Read)
    requires cap > 0
  {
    match rd.pc
    case RHead => (ring, rd.(pc := RLoadRead(ring.w)))
    case RLoadRead(w) => (ring, AfterPositions(rd, w, ring.r))
    case RReload(r) => (ring, AfterPositions(rd, ring.w, r))
    case RClosed(w, r) =>
      var eos := Eos(w, |ring.recv|, ring.closedAt);
      if ring.closed == 0 then (ring, NotEos(rd, r))
      else if rd.kind == WorkerSide then (ring, rd.(pc := REnd(eos)))
      else (ring, rd.(pc := RState(w, r, ring.closed, eos)))
    case RState(w, r, token, eos) =>
      if token == state then (ring, rd.(pc := REnd(eos))) else (ring, NotEos(rd, r))
    case RCopy(r, k, dst) =>
      if |dst| < k then
        (ring, rd.(pc := RCopy(r, k, dst + [Peek(ring.data, RingIndex(r, k, cap, |dst|))])))
      else
        (ring.(r := ToInt32(r + k), recv := ring.recv + dst), rd.(pc := REnd(Bytes(dst))))
    case REnd(_) => (ring, rd)
  }

  // -------------------------------------------------------------------------
  // The queue that a live ring implements

  ghost predicate RingInv(ring: Ring, cap: int) {
    && cap > 0
    && |ring.data| == cap
    && ring.w == |ring.sent| < TWO31
    && ring.r == |ring.recv| <= |ring.sent|
    && ring.recv == ring.sent[..|ring.recv|]
    && |ring.sent| - |ring.recv| <= cap
    && (forall p: nat | |ring.recv| <= p < |ring.sent| :: Cell(ring.data, p) == ring.sent[p])
    && (ring.closedAt.Some? ==> ring.closedAt.value <= |ring.sent|)
  }

  // What a writer that owns the write end knows between its steps.
  ghost predicate WriterOk(ring: Ring, cap: int, wr: Write) {
    && cap > 0 && |ring.data| == cap
    && 0 <= wr.off <= |wr.src|
    && match wr.pc
       case WHead => wr.off < |wr.src|
       case WLoadRead(w) => wr.off < |wr.src| && w == ring.w
       case WCopy(w, k, i) =>
         && w == ring.w >= 0
         && 0 < k <= cap - (w - ring.r) && k <= cap
         && wr.off + k <= |wr.src|
         && 0 <= i <= k
         && (forall p: nat | w <= p < w + i :: Cell(ring.data, p) == wr.src[wr.off + (p - w)])
       case WEnd => true
  }

  // What a reader that owns the read end knows between its steps.
  ghost predicate ReaderOk(ring: Ring, cap: int, rd: Read) {
    && cap > 0 && |ring.data| == cap
    && rd.n > 0
    && match rd.pc
       case RHead => rd.kind != StubSecond
       case RLoadRead(w) => rd.kind != StubSecond && ring.r <= w <= ring.w
       case RReload(r) => rd.kind == StubSecond && r == ring.r
       case RClosed(w, r) => r == w == ring.r
       case RState(w, r, token, eos) => rd.kind != WorkerSide && r == w == ring.r && eos.Eos? && token != 0
       case RCopy(r, k, dst) =>
         && r == ring.r == |ring.recv|
         && 0 < k <= ring.w - r && k <= rd.n && |dst| <= k
         && r + k <= |ring.sent|
         && dst == ring.sent[r..r + |dst|]
       case REnd(result) => ResultOk(rd, result)
  }

  ghost predicate ResultOk(rd: Read, result: ReadResult) {
    match result
    case Bytes(bytes) => 0 < |bytes| <= rd.n
    case Eos(_, _, _) => true
    case Retry => rd.kind == LibClient || rd.kind == WorkerSide
    case WouldBlock => rd.kind == StubSecond
  }

  // An end of stream follows a close, and by then exactly the bytes have been taken
  // that were published when the write lane was loaded.
  ghost predicate EosSound(eos: ReadResult) {
    eos.Eos? ==> eos.closedAt.Some? && eos.got == eos.seen
  }

  // Every byte published before the close has been delivered.
  ghost predicate Whole(eos: ReadResult) {
    eos.Eos? ==> eos.closedAt.Some? && eos.closedAt.value <= eos.got
  }

  // -------------------------------------------------------------------------
  // Arithmetic of ring indices

  lemma {:induction false} IndexIsMod(p: int, k: int, cap: int, i: int)
    requires 0 <= p && 0 < k <= cap && 0 <= i < k
    ensures RingIndex(p, k, cap, i) == (p + i) % cap
    ensures 0 <= RingIndex(p, k, cap, i) < cap
  {
    var pos, q := p % cap, p / cap;
    assert p == q * cap + pos;
    if i < Min(k, cap - pos) {
      DivModUnique(p + i, cap, q, pos + i);
    } else {
      assert p + i == (q + 1) * cap + (pos + i - cap);
      DivModUnique(p + i, cap, q + 1, pos + i - cap);
    }
  }

  lemma {:induction false} ModDistinct(a: int, b: int, cap: int)
    requires cap > 0 && 0 < b - a < cap
    ensures a % cap != b % cap
  {
    if a % cap == b % cap {
      assert b - a == (b / cap - a / cap) * cap;
      var d := b / cap - a / cap;
      if d >= 1 { MulAtLeast(d, cap); } else if d <= -1 { MulAtLeast(-d, cap); }
    }
  }

  // -------------------------------------------------------------------------
  // The writer's own steps

  lemma {:induction false} WriterStep(ring: Ring, cap: int, wr: Write)
    requires RingInv(ring, cap) && WriterOk(ring, cap, wr) && WriteFits(ring, wr)
    ensures var (ring', wr') := WriteStep(ring, cap, wr);
            && RingInv(ring', cap) && WriterOk(ring', cap, wr')
            && ring'.(w := ring.w, data := ring.data, sent := ring.sent) == ring
            && ring.sent <= ring'.sent
  {
    match wr.pc
    case WCopy(w, k, i) =>
      if i < k { WriterCopies(ring, cap, wr, w, k, i); } else { WriterPublishes(ring, cap, wr, w, k); }
    case _ =>
  }

  lemma {:induction false} WriterCopies(ring: Ring, cap: int, wr: Write, w: int, k: int, i: int)
    requires RingInv(ring, cap) && WriterOk(ring, cap, wr) && wr.pc == WCopy(w, k, i) && i < k
    ensures var (ring', wr') := WriteStep(ring, cap, wr);
            && RingInv(ring', cap) && WriterOk(ring', cap, wr')
            && ring' == ring.(data := ring'.data)
  {
    IndexIsMod(w, k, cap, i);
    var (ring', wr') := WriteStep(ring, cap, wr);
    forall p: nat | |ring.recv| <= p < |ring.sent| ensures Cell(ring'.data, p) == ring.sent[p] {
      assert Cell(ring.data, p) == ring.sent[p];
      ModDistinct(p, w + i, cap);
    }
    forall p: nat | w <= p < w + i + 1 ensures Cell(ring'.data, p) == wr.src[wr.off + (p - w)] {
      if p < w + i {
        assert Cell(ring.data, p) == wr.src[wr.off + (p - w)];
        ModDistinct(p, w + i, cap);
      }
    }
  }

  lemma {:induction false} WriterPublishes(ring: Ring, cap: int, wr: Write, w: int, k: int)
    requires RingInv(ring, cap) && WriterOk(ring, cap, wr) && WriteFits(ring, wr) && wr.pc == WCopy(w, k, k)
    ensures var (ring', wr') := WriteStep(ring, cap, wr);
            && RingInv(ring', cap) && WriterOk(ring', cap, wr')
            && ring' == ring.(w := w + k, sent := ring.sent + wr.src[wr.off..wr.off + k])
  {
    var (ring', wr') := WriteStep(ring, cap, wr);
    forall p: nat | |ring'.recv| <= p < |ring'.sent| ensures Cell(ring'.data, p) == ring'.sent[p] {
      if p >= w {
        assert Cell(ring.data, p) == wr.src[wr.off + (p - w)];
      } else {
        assert Cell(ring.data, p) == ring.sent[p];
      }
    }
  }

  // A piece takes all the room that the ring has, or all that is left to write.
  lemma {:induction false} PieceFillsRing(ring: Ring, cap: int, wr: Write)
    requires RingInv(ring, cap) && WriterOk(ring, cap, wr) && wr.pc.WLoadRead?
    ensures var room := cap - (|ring.sent| - |ring.recv|);
            WriteStep(ring, cap, wr).1.pc ==
              if room == 0 then WEnd else WCopy(|ring.sent|, if room <= |wr.src| - wr.off then room else |wr.src| - wr.off, 0)
  {
  }

  // -------------------------------------------------------------------------
  // The reader's own steps

  lemma {:induction false} ReaderStep(ring: Ring, state: int, cap: int, rd: Read)
    requires RingInv(ring, cap) && ReaderOk(ring, cap, rd)
    ensures var (ring', rd') := ReadStep(ring, state, cap, rd);
            && RingInv(ring', cap) && ReaderOk(ring', cap, rd')
            && ring'.(r := ring.r, recv := ring.recv) == ring
            && ring.recv <= ring'.recv
  {
    match rd.pc
    case RCopy(r, k, dst) =>
      if |dst| < k { ReaderCopies(ring, state, cap, rd, r, k, dst); } else { ReaderTakes(ring, state, cap, rd, r, k, dst); }
    case _ =>
  }

  lemma {:induction false} ReaderTakes(ring: Ring, state: int, cap: int, rd: Read, r: int, k: int, dst: seq<Byte>)
    requires RingInv(ring, cap) && ReaderOk(ring, cap, rd) && rd.pc == RCopy(r, k, dst) && |dst| == k
    ensures var (ring', rd') := ReadStep(ring, state, cap, rd);
            && ring' == ring.(r := r + k, recv := ring.sent[..r + k])
            && RingInv(ring', cap) && ring.recv <= ring'.recv
            && rd'.pc == REnd(Bytes(ring.sent[r..r + k]))
  {
    assert ring.sent[..r] + ring.sent[r..r + k] == ring.sent[..r + k];
  }

  lemma {:induction false} ReaderCopies(ring: Ring, state: int, cap: int, rd: Read, r: int, k: int, dst: seq<Byte>)
    requires RingInv(ring, cap) && ReaderOk(ring, cap, rd) && rd.pc == RCopy(r, k, dst) && |dst| < k
    ensures var (ring', rd') := ReadStep(ring, state, cap, rd);
            ring' == ring && ReaderOk(ring, cap, rd')
  {
    IndexIsMod(r, k, cap, |dst|);
    var p: nat := r + |dst|;
    assert Cell(ring.data, p) == ring.sent[p];
    var (_, rd') := ReadStep(ring, state, cap, rd);
    assert rd'.pc.dst == ring.sent[r..r + |dst|] + [ring.sent[r + |dst|]];
  }

  // The write lane is loaded at the first step of a try, and it counts what has been
  // published by then.
  lemma {:induction false} LoadSeesPublished(ring: Ring, state: int, cap: int, rd: Read)
    requires RingInv(ring, cap) && ReaderOk(ring, cap, rd) && (rd.pc.RHead? || rd.pc.RReload?)
    ensures var pc := ReadStep(ring, state, cap, rd).1.pc;
            && (rd.pc.RHead? ==> pc == RLoadRead(|ring.sent|))
            && (rd.pc.RReload? ==> pc == RClosed(|ring.sent|, |ring.recv|) || (pc.RCopy? && ring.recv < ring.sent))
  {
    if ring.recv == ring.sent { assert ring.w == ring.r; }
  }

  // Every byte published before the close has been delivered at the load of the closed
  // lane if and only if it had been published when the write lane was loaded: what is
  // lost is what was published between that load and the close.
  lemma {:induction false} DeliveredExactlyWhenSeen(ring: Ring, cap: int, rd: Read)
    requires RingInv(ring, cap) && ReaderOk(ring, cap, rd) && rd.pc.RClosed? && ring.closedAt.Some?
    ensures ring.sent[..ring.closedAt.value] <= ring.recv <==> ring.closedAt.value <= rd.pc.w
    ensures ring.closedAt.value > rd.pc.w ==> ring.sent[..ring.closedAt.value] == ring.recv + ring.sent[rd.pc.w..ring.closedAt.value]
  {
    var before := ring.sent[..ring.closedAt.value];
    if ring.closedAt.value <= rd.pc.w {
      assert before == ring.recv[..ring.closedAt.value];
    } else {
      assert before == ring.sent[..rd.pc.w] + ring.sent[rd.pc.w..ring.closedAt.value];
    }
  }

  // -------------------------------------------------------------------------
  // Reading a ring that is closed already

  // What a read has learnt that began after the ring was closed with `c` bytes published.
  ghost predicate LateRead(c: nat, rd: Read) {
    match rd.pc
    case RLoadRead(w) => c <= w
    case RClosed(w, _) => c <= w
    case RState(_, _, _, eos) => Whole(eos)
    case REnd(result) => Whole(result)
    case _ => true
  }

  lemma {:induction false} LateStep(ring: Ring, state: int, cap: int, rd: Read)
    requires RingInv(ring, cap) && ReaderOk(ring, cap, rd)
    requires ring.closedAt.Some? && LateRead(ring.closedAt.value, rd)
    ensures LateRead(ring.closedAt.value, ReadStep(ring, state, cap, rd).1)
  {
  }

  // The stub's WOULD_BLOCK (-2) takes nothing, and only follows a second try that has
  // found all published bytes taken and no close for the current claim.
  lemma {:induction false} WouldBlockIsEmpty(ring: Ring, state: int, cap: int, rd: Read)
    requires RingInv(ring, cap) && ReaderOk(ring, cap, rd) && !rd.pc.REnd?
    requires ReadStep(ring, state, cap, rd).1.pc == REnd(WouldBlock)
    ensures ReadStep(ring, state, cap, rd).0 == ring && rd.kind == StubSecond
    ensures match rd.pc
            case RClosed(w, r) => w == r == |ring.recv| && ring.closed == 0
            case RState(w, r, token, _) => w == r == |ring.recv| && token != state
            case _ => false
  {
    match rd.pc
    case RClosed(_, _) =>
    case _ =>
  }

  // -------------------------------------------------------------------------
  // Each end leaves the other one's knowledge intact

  lemma {:induction false} WriterSparesReader(ring: Ring, cap: int, wr: Write, rd: Read)
    requires RingInv(ring, cap) && WriterOk(ring, cap, wr) && WriteFits(ring, wr) && ReaderOk(ring, cap, rd)
    ensures ReaderOk(WriteStep(ring, cap, wr).0, cap, rd)
  {
    WriterStep(ring, cap, wr);
  }

  // Closing a ring matters to neither.
  lemma {:induction false} CloseSparesBoth(ring: Ring, ring': Ring, cap: int, wr: Write, rd: Read)
    requires ring' == ring.(closed := ring'.closed, closedAt := ring'.closedAt)
    ensures WriterOk(ring', cap, wr) == WriterOk(ring, cap, wr)
    ensures ReaderOk(ring', cap, rd) == ReaderOk(ring, cap, rd)
  {
  }

  lemma {:induction false} ReaderSparesWriter(ring: Ring, state: int, cap: int, wr: Write, rd: Read)
    requires RingInv(ring, cap) && WriterOk(ring, cap, wr) && ReaderOk(ring, cap, rd)
    ensures WriterOk(ReadStep(ring, state, cap, rd).0, cap, wr)
  {
    ReaderStep(ring, state, cap, rd);
  }
}
