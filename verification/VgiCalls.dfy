/** What a whole call of `ringWrite` or `ringRead` has done to the streams, from its
    start to its return, whatever the other threads do in between. */
module VgiCalls {
  import opened Numbers
  import opened Wrappers
  import opened VgiLayout
  import opened VgiRing
  import opened VgiChannel
  import opened VgiInvariant
  import opened VgiTheorems
  import opened VgiEos

  // -------------------------------------------------------------------------
  // The client

  // From state i to state j thread t is the client of claim id on slot k.
  ghost predicate ClientDuring(run: seq<Chan>, i: nat, j: nat, t: Tid, id: int, k: nat) {
    i <= j < |run| && forall m: nat | i <= m <= j :: IsClient(run[m], t, id, k)
  }

  // The write and the read that thread t has under way.
  function WriteOf(s: Chan, t: Tid): Option<Write> {
    if t in s.threads && s.threads[t].Client? then s.threads[t].wr else None
  }

  function ReadOf(s: Chan, t: Tid): ClientRead {
    if t in s.threads && s.threads[t].Client? then s.threads[t].rd else CDone(Nothing)
  }

  // Nobody else publishes in the client's direction or takes what is meant for it.
  lemma {:induction false} OthersSpareClient(env: Env, u: Tid, uth: Thread, a: Slot, uth': Thread, b: Slot, t: Tid)
    requires SlotInv(env, a) && ThreadOk(env, u, uth, a) && SlotStep(env, u, uth, a, uth', b)
    requires a.client == Some(t) && u != t
    ensures b.c2w.sent == a.c2w.sent && b.w2c.recv == a.w2c.recv && a.w2c.sent <= b.w2c.sent
  {
    match uth
    case Opening(_, _, _) => hide LiveInv;
    case Client(_, _, _, _) =>
    case Worker(_, _, _) =>
      if uth.op.Crit? {
        CritSparesClient(env, u, uth, a, uth', b);
      } else {
        hide LiveInv, WorkerOk;
        assert uth.op.ErrClose? ==> b.w2c == a.w2c.(closed := b.w2c.closed, closedAt := b.w2c.closedAt);
      }
    case Observer(_, _) =>
  }

  lemma {:induction false} CritSparesClient(env: Env, u: Tid, uth: Thread, a: Slot, uth': Thread, b: Slot)
    requires SlotInv(env, a) && uth.Worker? && uth.op.Crit? && ThreadOk(env, u, uth, a) && WorkerStep(env, u, uth, a, uth', b)
    ensures b.c2w.sent == a.c2w.sent && b.w2c.recv == a.w2c.recv && a.w2c.sent <= b.w2c.sent
  {
    match uth.op.job
    case JWrite(wr) => WriterStep(a.w2c, env.cap, wr);
    case JRead(rd) => ReaderStep(a.c2w, a.state, env.cap, rd);
    case JClose =>
  }

  // A step of the run while t is the client of slot k: its own or another thread's.
  lemma {:induction false} ClientStep(run: seq<Chan>, m: nat, t: Tid, id: int, k: nat) returns (own: bool)
    requires IsRun(run) && m + 1 < |run| && IsClient(run[m], t, id, k) && IsClient(run[m + 1], t, id, k)
    ensures k < |run[m].slots| && k < |run[m + 1].slots|
    ensures run[m + 1].env == run[m].env.(published := run[m + 1].env.published, opens := run[m + 1].env.opens)
    ensures SlotInv(run[m].env, run[m].slots[k]) && ThreadOk(run[m].env, t, run[m].threads[t], run[m].slots[k])
    ensures run[m].slots[k].state == run[m + 1].slots[k].state == id != 0
    ensures var th, th', a, b := run[m].threads[t], run[m + 1].threads[t], run[m].slots[k], run[m + 1].slots[k];
            if own then ClientWrites(run[m].env, th, a, th', b) || ClientReads(run[m].env, th, a, th', b)
            else th' == th && b.c2w.sent == a.c2w.sent && b.w2c.recv == a.w2c.recv && a.w2c.sent <= b.w2c.sent
  {
    var s, s' := run[m], run[m + 1];
    RunInv(run, m);
    RunInv(run, m + 1);
    RunGrows(run, m, m + 1);
    ClientAt(s, t, id, k);
    ClientAt(s', t, id, k);
    assert Linked(run, m);
    var u :| ThreadStep(s, u, s');
    var j := Moves(s, u, s');
    assert ThreadInv(s, u);
    ClientHolds(s.env, t, s.threads[t], s.slots[k]);
    own := u == t;
    hide Inv, ThreadOk, SlotInv, SlotStep;
    if own {
      StaysClient(s.env, t, s.threads[t], s.slots[k], s'.threads[t], s'.slots[k]);
    } else if j == Some(k) {
      OthersSpareClient(s.env, u, s.threads[u], s.slots[k], s'.threads[u], s'.slots[k], t);
    }
  }

  lemma {:induction false} ClientHolds(env: Env, t: Tid, th: Thread, a: Slot)
    requires th.Client? && ThreadOk(env, t, th, a)
    ensures a.client == Some(t)
  {
  }

  // One step of a client whose write is under way.
  lemma {:induction false} ClientWriteStep(env: Env, t: Tid, th: Thread, a: Slot, th': Thread, b: Slot)
    requires SlotInv(env, a) && th.Client? && th.wr.Some? && ThreadOk(env, t, th, a) && th'.Client?
    requires ClientWrites(env, th, a, th', b) || ClientReads(env, th, a, th', b)
    ensures var wr := th.wr.value;
            && 0 <= wr.off <= |wr.src|
            && match th'.wr
               case Some(wr') =>
                 wr'.src == wr.src && wr.off <= wr'.off <= |wr.src| && b.c2w.sent == a.c2w.sent + wr.src[wr.off..wr'.off]
               case None => wr.off == |wr.src| && b.c2w.sent == a.c2w.sent
  {
    var wr := th.wr.value;
    assert wr.src[wr.off..wr.off] == [] && a.c2w.sent + [] == a.c2w.sent;
    if ClientWrites(env, th, a, th', b) && !wr.pc.WEnd? {
      WriterStep(a.c2w, env.cap, wr);
    }
  }

  // A client's write that has returned has published exactly its bytes, in order.
  lemma {:induction false} ClientWriteIsWhole(run: seq<Chan>, i: nat, j: nat, t: Tid, id: int, k: nat)
    requires IsRun(run) && ClientDuring(run, i, j, t, id, k) && i + 1 < j
    requires WriteOf(run[i], t).None? && WriteOf(run[j], t).None?
    requires forall m: nat | i < m < j :: WriteOf(run[m], t).Some?
    ensures k < |run[i].slots| && k < |run[j].slots|
    ensures run[j].slots[k].c2w.sent == run[i].slots[k].c2w.sent + WriteOf(run[i + 1], t).value.src
  {
    hide ThreadOk, SlotInv, IsRun;
    ClientWriteSoFar(run, i, j - 1, t, id, k);
    var own := ClientStep(run, j - 1, t, id, k);
    ClientWriteStep(run[j - 1].env, t, run[j - 1].threads[t], run[j - 1].slots[k], run[j].threads[t], run[j].slots[k]);
    var src := WriteOf(run[i + 1], t).value.src;
    assert src[..|src|] == src;
  }

  lemma {:induction false} ClientWriteStarts(env: Env, th: Thread, a: Slot, th': Thread, b: Slot)
    requires th.Client? && th.wr.None? && th'.Client? && th'.wr.Some? && SlotInv(env, a)
    requires ClientWrites(env, th, a, th', b) || ClientReads(env, th, a, th', b)
    ensures th'.wr.value.off == 0 && b == a
  {
  }

  lemma {:induction false} ClientWriteSoFar(run: seq<Chan>, i: nat, j: nat, t: Tid, id: int, k: nat)
    requires IsRun(run) && ClientDuring(run, i, j, t, id, k) && i < j
    requires WriteOf(run[i], t).None? && forall m: nat | i < m <= j :: WriteOf(run[m], t).Some?
    ensures k < |run[i].slots| && k < |run[j].slots|
    ensures var src, wr := WriteOf(run[i + 1], t).value.src, WriteOf(run[j], t).value;
            && wr.src == src && 0 <= wr.off <= |src|
            && run[j].slots[k].c2w.sent == run[i].slots[k].c2w.sent + src[..wr.off]
  {
    hide ThreadOk, SlotInv, IsRun, ClientWrites, ClientReads;
    var own := ClientStep(run, j - 1, t, id, k);
    var src, wr := WriteOf(run[i + 1], t).value.src, WriteOf(run[j], t).value;
    if j == i + 1 {
      if own { ClientWriteStarts(run[i].env, run[i].threads[t], run[i].slots[k], run[j].threads[t], run[j].slots[k]); }
      assert run[i].slots[k].c2w.sent + src[..0] == run[i].slots[k].c2w.sent;
    } else {
      ClientWriteSoFar(run, i, j - 1, t, id, k);
      if own {
        var was := WriteOf(run[j - 1], t).value;
        ClientWriteStep(run[j - 1].env, t, run[j - 1].threads[t], run[j - 1].slots[k], run[j].threads[t], run[j].slots[k]);
        assert src[..was.off] + src[was.off..wr.off] == src[..wr.off];
      }
    }
  }

  // What a client's read has taken since it began with `before` taken and `seen` bytes
  // published.
  ghost predicate ReadSoFar(rd: ClientRead, ring: Ring, n: int, before: seq<Byte>, seen: nat) {
    && |before| <= seen <= |ring.sent|
    && match rd
       case CRead(op) => op.n == n && OpSoFar(op, ring, before, seen)
       case CDone(Got(Bytes(bytes))) => ring.recv == before + bytes && Enough(bytes, n, before, seen)
       case CDone(Got(Retry)) => false
       case CDone(Nothing) => false
       case CTerm(_, eos) => eos.Eos? && ring.recv == before && seen == |before|
       case CStub(_, eos) => eos.Eos? && ring.recv == before && seen == |before|
       case CDone(_) => ring.recv == before && seen == |before|
  }

  ghost predicate OpSoFar(op: Read, ring: Ring, before: seq<Byte>, seen: nat) {
    && (!(op.pc.REnd? && op.pc.result.Bytes?) ==> ring.recv == before)
    && match op.pc
       case RHead => true
       case RLoadRead(w) => seen <= w
       case RCopy(r, k, _) => Min(op.n, seen - |before|) <= k
       case REnd(Bytes(bytes)) => ring.recv == before + bytes && Enough(bytes, op.n, before, seen)
       case _ => seen == |before|
  }

  ghost predicate Enough(bytes: seq<Byte>, n: int, before: seq<Byte>, seen: nat) {
    0 < |bytes| <= n && Min(n, seen - |before|) <= |bytes|
  }

  lemma {:induction false} OpGoesOn(ring: Ring, state: int, cap: int, op: Read, before: seq<Byte>, seen: nat)
    requires RingInv(ring, cap) && ReaderOk(ring, cap, op) && !op.pc.REnd?
    requires |before| <= seen <= |ring.sent| && OpSoFar(op, ring, before, seen)
    ensures var (ring', op') := ReadStep(ring, state, cap, op);
            op'.n == op.n && ring'.sent == ring.sent && OpSoFar(op', ring', before, seen)
  {
    if op.pc.RCopy? && |op.pc.dst| == op.pc.k { ReaderTakes(ring, state, cap, op, op.pc.r, op.pc.k, op.pc.dst); }
  }

  lemma {:induction false} ClientReadStep(env: Env, t: Tid, th: Thread, a: Slot, th': Thread, b: Slot, n: int, before: seq<Byte>, seen: nat)
    requires SlotInv(env, a) && th.Client? && ThreadOk(env, t, th, a) && th'.Client?
    requires ClientWrites(env, th, a, th', b) || ClientReads(env, th, a, th', b)
    requires !th.rd.CDone? && ReadSoFar(th.rd, a.w2c, n, before, seen)
    ensures ReadSoFar(th'.rd, b.w2c, n, before, seen)
  {
    hide ThreadOk;
    if ClientReads(env, th, a, th', b) && th.rd.CRead? && !th.rd.rd.pc.REnd? {
      ReadsWell(env, t, th, a);
      OpGoesOn(a.w2c, a.state, env.cap, th.rd.rd, before, seen);
    }
    hide RingInv, ReaderOk, ReadStep, WriteStep;
  }

  // A client's read that has returned: with bytes, they are the next ones of the stream,
  // at least as many as were there when it began, if wanted; without, it has taken
  // nothing and there was nothing when it began.
  lemma {:induction false} ClientReadTakes(run: seq<Chan>, i: nat, j: nat, t: Tid, id: int, k: nat)
    requires IsRun(run) && ClientDuring(run, i, j, t, id, k)
    requires ReadOf(run[i], t).CRead? && ReadOf(run[i], t).rd.pc.RHead?
    requires forall m: nat | i <= m < j :: !ReadOf(run[m], t).CDone?
    ensures k < |run[i].slots| && k < |run[j].slots|
    ensures var n, before, seen := ReadOf(run[i], t).rd.n, run[i].slots[k].w2c.recv, |run[i].slots[k].w2c.sent|;
            var recv := run[j].slots[k].w2c.recv;
            && ReadSoFar(ReadOf(run[j], t), run[j].slots[k].w2c, n, before, seen)
            && match ReadOf(run[j], t)
               case CDone(Got(Bytes(bytes))) => recv == before + bytes && Min(n, seen - |before|) <= |bytes| <= n && bytes != []
               case CDone(answer) => recv == before && seen == |before| && answer != Nothing && answer != Got(Retry)
               case _ => true
    decreases j - i
  {
    hide ThreadOk, SlotInv, IsRun, OpSoFar, ClientWrites, ClientReads;
    RunInv(run, i);
    ClientAt(run[i], t, id, k);
    var n, before, seen := ReadOf(run[i], t).rd.n, run[i].slots[k].w2c.recv, |run[i].slots[k].w2c.sent|;
    if i == j {
      StartsReading(run[i].env, run[i].threads[t], run[i].slots[k]);
    } else {
      ClientReadTakes(run, i, j - 1, t, id, k);
      var own := ClientStep(run, j - 1, t, id, k);
      var s, s' := run[j - 1], run[j];
      if own {
        ClientReadStep(s.env, t, s.threads[t], s.slots[k], s'.threads[t], s'.slots[k], n, before, seen);
      } else {
        StaysReading(s.threads[t].rd, s.slots[k].w2c, s'.slots[k].w2c, n, before, seen);
      }
    }
  }

  lemma {:induction false} StartsReading(env: Env, th: Thread, a: Slot)
    requires SlotInv(env, a) && a.state != 0 && th.Client? && th.rd.CRead? && th.rd.rd.pc.RHead?
    ensures ReadSoFar(th.rd, a.w2c, th.rd.rd.n, a.w2c.recv, |a.w2c.sent|)
  {
  }

  lemma {:induction false} StaysReading(rd: ClientRead, ring: Ring, ring': Ring, n: int, before: seq<Byte>, seen: nat)
    requires ReadSoFar(rd, ring, n, before, seen) && ring'.recv == ring.recv && ring.sent <= ring'.sent
    ensures ReadSoFar(rd, ring', n, before, seen)
  {
  }

  // -------------------------------------------------------------------------
  // Workers

  // From state i to state j thread t is a worker that serves claim c on slot k.
  ghost predicate WorkerDuring(run: seq<Chan>, i: nat, j: nat, t: Tid, c: int, k: nat) {
    i <= j < |run| && forall m: nat | i <= m <= j :: IsWorker(run[m], t, c, k)
  }

  function OpOf(s: Chan, t: Tid): WorkerOp {
    if t in s.threads && s.threads[t].Worker? then s.threads[t].op else Ready(NoOutcome)
  }

  function Behind(before: seq<Byte>, now: seq<Byte>): seq<Byte> {
    if |before| <= |now| then now[|before|..] else []
  }

  // What the steps of thread t from state i to state j have published in w2c: only its
  // own steps change a thread.
  function PutBy(run: seq<Chan>, i: nat, j: nat, t: Tid, k: nat): seq<Byte>
    requires i <= j < |run|
  {
    if i == j then [] else PutBy(run, i, j - 1, t, k) + PutIn(run[j - 1], run[j], t, k)
  }

  function PutIn(s: Chan, s': Chan, t: Tid, k: nat): seq<Byte> {
    if t in s.threads && t in s'.threads && s.threads[t] != s'.threads[t] && k < |s.slots| && k < |s'.slots|
    then Behind(s.slots[k].w2c.sent, s'.slots[k].w2c.sent) else []
  }

  // And what they have taken from c2w.
  function TakenBy(run: seq<Chan>, i: nat, j: nat, t: Tid, k: nat): seq<Byte>
    requires i <= j < |run|
  {
    if i == j then [] else TakenBy(run, i, j - 1, t, k) + TakenIn(run[j - 1], run[j], t, k)
  }

  function TakenIn(s: Chan, s': Chan, t: Tid, k: nat): seq<Byte> {
    if t in s.threads && t in s'.threads && s.threads[t] != s'.threads[t] && k < |s.slots| && k < |s'.slots|
    then Behind(s.slots[k].c2w.recv, s'.slots[k].c2w.recv) else []
  }

  // A step of the run while t serves claim c on slot k.
  lemma {:induction false} WorkerMoves(run: seq<Chan>, m: nat, t: Tid, c: int, k: nat) returns (own: bool)
    requires IsRun(run) && m + 1 < |run| && IsWorker(run[m], t, c, k) && IsWorker(run[m + 1], t, c, k)
    ensures k < |run[m].slots| && k < |run[m + 1].slots|
    ensures SlotInv(run[m].env, run[m].slots[k]) && ThreadOk(run[m].env, t, run[m].threads[t], run[m].slots[k])
    ensures run[m + 1].env == run[m].env.(published := run[m + 1].env.published, opens := run[m + 1].env.opens)
    ensures var th, th', a, b := run[m].threads[t], run[m + 1].threads[t], run[m].slots[k], run[m + 1].slots[k];
            && (own ==> WorkerStep(run[m].env, t, th, a, th', b))
            && (!own ==> th' == th)
  {
    var s, s' := run[m], run[m + 1];
    RunInv(run, m);
    RunInv(run, m + 1);
    RunGrows(run, m, m + 1);
    WorkerAt(s, t, c, k);
    WorkerAt(s', t, c, k);
    assert Linked(run, m);
    var u :| ThreadStep(s, u, s');
    var j := Moves(s, u, s');
    own := u == t;
  }

  predicate HasJob(op: WorkerOp) {
    op.AcqLoad? || op.AcqCas? || op.AcqCheck? || op.AcqUndo? || op.Crit? || op.Releasing?
  }

  // What a worker's write has published, `put`, and what it may still return.
  ghost predicate JobWritten(op: WorkerOp, src: seq<Byte>, put: seq<Byte>) {
    match op
    case Ready(Wrote(n)) => n == |src| && put == src
    case Ready(LostClaim(n)) => 0 <= n < |src| && put == src[..n]
    case Ready(_) => false
    case ErrClose(_, _, _) => false
    case _ => op.job.JWrite? && op.job.wr.src == src && 0 <= op.job.wr.off <= |src| && put == src[..op.job.wr.off]
  }

  lemma {:induction false} JobWriteStep(env: Env, t: Tid, th: Thread, a: Slot, th': Thread, b: Slot, src: seq<Byte>, put: seq<Byte>)
    requires SlotInv(env, a) && th.Worker? && HasJob(th.op) && ThreadOk(env, t, th, a) && WorkerStep(env, t, th, a, th', b)
    requires JobWritten(th.op, src, put)
    ensures JobWritten(th'.op, src, put + Behind(a.w2c.sent, b.w2c.sent))
  {
    assert put + [] == put;
    if th.op.Crit? {
      CritWriteStep(env, t, th, a, th', b, src, put);
    } else {
      RingsStay(env, t, th, a, th', b);
      assert b.w2c == a.w2c && src[..|src|] == src;
      hide SlotInv;
    }
  }

  // Outside of the reservation a job does nothing to the rings.
  lemma {:induction false} RingsStay(env: Env, t: Tid, th: Thread, a: Slot, th': Thread, b: Slot)
    requires th.Worker? && HasJob(th.op) && !th.op.Crit? && env.cap > 0 && WorkerStep(env, t, th, a, th', b)
    ensures b.w2c == a.w2c && b.c2w == a.c2w
  {
  }

  lemma {:induction false} CritWriteStep(env: Env, t: Tid, th: Thread, a: Slot, th': Thread, b: Slot, src: seq<Byte>, put: seq<Byte>)
    requires SlotInv(env, a) && th.Worker? && th.op.Crit? && ThreadOk(env, t, th, a) && WorkerStep(env, t, th, a, th', b)
    requires JobWritten(th.op, src, put)
    ensures JobWritten(th'.op, src, put + Behind(a.w2c.sent, b.w2c.sent))
  {
    var wr := th.op.job.wr;
    assert put + [] == put;
    if wr.pc.WCopy? && wr.pc.i == wr.pc.k {
      WriterPublishes(a.w2c, env.cap, wr, wr.pc.w, wr.pc.k);
      assert src[..wr.off] + src[wr.off..wr.off + wr.pc.k] == src[..wr.off + wr.pc.k];
    }
  }

  // A worker's write has published in its pieces, in order, exactly its bytes when it
  // returns their number; and the first n when it loses its claim and returns n.
  lemma {:induction false} WorkerWriteIsWhole(run: seq<Chan>, i: nat, j: nat, t: Tid, c: int, k: nat)
    requires IsRun(run) && WorkerDuring(run, i, j, t, c, k)
    requires OpOf(run[i], t).AcqLoad? && OpOf(run[i], t).job.JWrite? && OpOf(run[i], t).job.wr.off == 0
    requires forall m: nat | i <= m < j :: HasJob(OpOf(run[m], t))
    ensures var src, put := OpOf(run[i], t).job.wr.src, PutBy(run, i, j, t, k);
            && JobWritten(OpOf(run[j], t), src, put)
            && match OpOf(run[j], t)
               case Ready(Wrote(n)) => n == |src| && put == src
               case Ready(LostClaim(n)) => 0 <= n < |src| && put == src[..n]
               case op => HasJob(op)
    decreases j - i
  {
    hide ThreadOk, SlotInv, IsRun, WorkerStep, JobWritten, Behind;
    var src := OpOf(run[i], t).job.wr.src;
    if i == j {
      assert JobWritten(OpOf(run[i], t), src, []) by { WrittenAtFirst(OpOf(run[i], t)); }
    } else {
      WorkerWriteIsWhole(run, i, j - 1, t, c, k);
      var own := WorkerMoves(run, j - 1, t, c, k);
      var s, s' := run[j - 1], run[j];
      var put := PutBy(run, i, j - 1, t, k);
      assert put + [] == put;
      if own {
        JobWriteStep(s.env, t, s.threads[t], s.slots[k], s'.threads[t], s'.slots[k], src, put);
        WorkerStepChanges(s.env, t, s.threads[t], s.slots[k], s'.threads[t], s'.slots[k]);
      }
    }
    WrittenAtLast(OpOf(run[j], t), src, PutBy(run, i, j, t, k));
  }

  lemma {:induction false} WrittenAtFirst(op: WorkerOp)
    requires op.AcqLoad? && op.job.JWrite? && op.job.wr.off == 0
    ensures JobWritten(op, op.job.wr.src, [])
  {
  }

  lemma {:induction false} WrittenAtLast(op: WorkerOp, src: seq<Byte>, put: seq<Byte>)
    requires JobWritten(op, src, put)
    ensures match op
            case Ready(Wrote(n)) => n == |src| && put == src
            case Ready(LostClaim(n)) => 0 <= n < |src| && put == src[..n]
            case _ => HasJob(op)
  {
  }

  lemma {:induction false} WorkerStepChanges(env: Env, t: Tid, th: Thread, a: Slot, th': Thread, b: Slot)
    requires SlotInv(env, a) && th.Worker? && HasJob(th.op) && ThreadOk(env, t, th, a) && WorkerStep(env, t, th, a, th', b)
    ensures th' != th
  {
    hide SlotInv;
  }

  // What a worker's read has taken, and what it may still return.
  ghost predicate JobRead(op: WorkerOp, n: int, taken: seq<Byte>) {
    match op
    case Ready(ReadDone(Bytes(bytes))) => taken == bytes && 0 < |bytes| <= n
    case Ready(ReadDone(Eos(_, _, _))) => taken == []
    case Ready(LostClaim(m)) => m == 0 && taken == []
    case Ready(_) => false
    case ErrClose(_, _, _) => false
    case _ =>
      && op.job.JRead? && op.job.rd.n == n
      && (match op.job.rd.pc
          case REnd(Bytes(bytes)) => op.Releasing? && taken == bytes && 0 < |bytes| <= n
          case _ => taken == [])
  }

  lemma {:induction false} JobReadStep(env: Env, t: Tid, th: Thread, a: Slot, th': Thread, b: Slot, n: int, taken: seq<Byte>)
    requires SlotInv(env, a) && th.Worker? && HasJob(th.op) && ThreadOk(env, t, th, a) && WorkerStep(env, t, th, a, th', b)
    requires JobRead(th.op, n, taken)
    ensures JobRead(th'.op, n, taken + Behind(a.c2w.recv, b.c2w.recv))
  {
    assert taken + [] == taken;
    if th.op.Crit? {
      CritReadStep(env, t, th, a, th', b, n, taken);
    } else {
      RingsStay(env, t, th, a, th', b);
      hide SlotInv;
    }
  }

  lemma {:induction false} CritReadStep(env: Env, t: Tid, th: Thread, a: Slot, th': Thread, b: Slot, n: int, taken: seq<Byte>)
    requires SlotInv(env, a) && th.Worker? && th.op.Crit? && ThreadOk(env, t, th, a) && WorkerStep(env, t, th, a, th', b)
    requires JobRead(th.op, n, taken)
    ensures JobRead(th'.op, n, taken + Behind(a.c2w.recv, b.c2w.recv))
  {
    var rd := th.op.job.rd;
    assert taken + [] == taken;
    if rd.pc.RCopy? && |rd.pc.dst| == rd.pc.k { ReaderTakes(a.c2w, a.state, env.cap, rd, rd.pc.r, rd.pc.k, rd.pc.dst); }
  }

  // A worker's read has taken exactly the bytes that it returns.
  lemma {:induction false} WorkerReadTakes(run: seq<Chan>, i: nat, j: nat, t: Tid, c: int, k: nat)
    requires IsRun(run) && WorkerDuring(run, i, j, t, c, k)
    requires OpOf(run[i], t).AcqLoad? && OpOf(run[i], t).job.JRead?
    requires forall m: nat | i <= m < j :: HasJob(OpOf(run[m], t))
    ensures var n, taken := OpOf(run[i], t).job.rd.n, TakenBy(run, i, j, t, k);
            && JobRead(OpOf(run[j], t), n, taken)
            && match OpOf(run[j], t)
               case Ready(ReadDone(Bytes(bytes))) => taken == bytes && 0 < |bytes| <= n
               case Ready(_) => taken == []
               case op => HasJob(op)
    decreases j - i
  {
    hide ThreadOk, SlotInv, IsRun, WorkerStep, JobRead, Behind;
    var n := OpOf(run[i], t).job.rd.n;
    if i == j {
      RunInv(run, i);
      WorkerAt(run[i], t, c, k);
      ReadAtFirst(run[i].env, t, run[i].threads[t], run[i].slots[k]);
    } else {
      WorkerReadTakes(run, i, j - 1, t, c, k);
      var own := WorkerMoves(run, j - 1, t, c, k);
      var s, s' := run[j - 1], run[j];
      var taken := TakenBy(run, i, j - 1, t, k);
      assert taken + [] == taken;
      if own {
        JobReadStep(s.env, t, s.threads[t], s.slots[k], s'.threads[t], s'.slots[k], n, taken);
        WorkerStepChanges(s.env, t, s.threads[t], s.slots[k], s'.threads[t], s'.slots[k]);
      }
    }
    ReadAtLast(OpOf(run[j], t), n, TakenBy(run, i, j, t, k));
  }

  lemma {:induction false} ReadAtFirst(env: Env, t: Tid, th: Thread, a: Slot)
    requires th.Worker? && ThreadOk(env, t, th, a) && th.op.AcqLoad? && th.op.job.JRead?
    ensures JobRead(th.op, th.op.job.rd.n, [])
  {
  }

  lemma {:induction false} ReadAtLast(op: WorkerOp, n: int, taken: seq<Byte>)
    requires JobRead(op, n, taken)
    ensures match op
            case Ready(ReadDone(Bytes(bytes))) => taken == bytes && 0 < |bytes| <= n
            case Ready(_) => taken == []
            case _ => HasJob(op)
  {
  }
}
