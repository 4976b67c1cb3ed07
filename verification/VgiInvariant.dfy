/** What every reachable state of a VGI channel satisfies: one invariant per slot
    and one per thread, kept by the thread's own steps and by those of others. */
module VgiInvariant {
  import opened Wrappers
  import opened VgiLayout
  import opened VgiRing
  import opened VgiChannel

  ghost predicate SlotInv(env: Env, a: Slot) {
    && env.cap > 0
    && |a.c2w.data| == |a.w2c.data| == env.cap
    && 0 !in env.published
    && (a.reservation == 0 <==> a.holder.None?)
    && (a.state == 0 <==> a.client.None?)
    && (a.state != 0 ==> a.live && a.state == a.cur)
    && (a.live ==> LiveInv(env, a))
    && a.errLog.Keys <= a.errBy.Keys
  }

  // The rings and lanes of the claim that was published last.
  ghost predicate LiveInv(env: Env, a: Slot) {
    && a.cur in env.published
    && RingInv(a.c2w, env.cap) && RingInv(a.w2c, env.cap)
    && (a.c2w.closed != 0 <==> a.c2w.closedAt.Some?)
    && (a.w2c.closed == a.cur ==> a.w2c.closedAt.Some?)
    && (a.termClaim == a.cur ==> a.cur in a.errLog)
    && (a.clean && a.termClaim == a.cur ==> a.errLog[a.cur] == Terminal(a.termCode, a.termDetail))
  }

  ghost predicate ThreadOk(env: Env, t: Tid, th: Thread, a: Slot) {
    match th
    case Idle => true
    case Opening(id, _, pc) => OpenerOk(env, t, id, pc, a)
    case Client(id, _, wr, rd) =>
      && a.client == Some(t) && a.state == id && id in env.published
      && (wr.Some? ==> WriterOk(a.c2w, env.cap, wr.value))
      && ClientReadOk(env, id, rd, a)
    case Worker(claim, _, op) => claim in env.published && WorkerOk(env, t, claim, op, a)
    case Observer(_, obs) => ObsOk(env, obs, a)
  }

  ghost predicate OpenerOk(env: Env, t: Tid, id: int, pc: OpenPc, a: Slot) {
    && id != 0
    && (pc.OUnlock? <==> id in env.published)
    && (!pc.OCas? ==> a.holder == Some(t) && a.reservation == id)
    && (pc.OUnlock? ==> a.client == Some(t) && a.state == id)
    && (pc.OReset? ==>
          && a.state == 0 && !a.live && pc.j <= RESET_LANES
          && (pc.j > 0 ==> a.c2w.w == 0)
          && (pc.j > 1 ==> a.c2w.r == 0)
          && (pc.j > 2 ==> a.c2w.closed == 0)
          && (pc.j > 3 ==> a.w2c.w == 0)
          && (pc.j > 4 ==> a.w2c.r == 0)
          && (pc.j > 5 ==> a.w2c.closed != id)
          && (pc.j > 6 ==> a.termClaim != id))
  }

  ghost predicate ClientReadOk(env: Env, id: int, rd: ClientRead, a: Slot) {
    match rd
    case CRead(op) =>
      && ReaderOk(a.w2c, env.cap, op) && op.kind != WorkerSide
      && (op.pc.RState? && op.pc.token == id ==> EosSound(op.pc.eos))
      && (op.pc.REnd? ==> EosSound(op.pc.result))
    case CTerm(obs, eos) => EosSound(eos) && ObsOk(env, obs, a) && ObsClaim(obs, id)
    case CStub(pc, eos) => EosSound(eos) && (pc.SState2? && pc.token == id ==> id in a.errLog)
    case CDone(Got(result)) => EosSound(result)
    case CDone(TerminalError(eos)) => EosSound(eos) && id in a.errLog
    case CDone(Nothing) => true
  }

  // The claim an observer of its own slot has read is its own.
  ghost predicate ObsClaim(obs: ObsPc, id: int) {
    match obs
    case OClaim(c) => c == id
    case OCode(c) => c == id
    case ODetail(c, _) => c == id
    case OState2(c, _, _) => c == id
    case OClaim2(c, _, _) => c == id
    case OGot(c, _, _) => c == id
    case _ => true
  }

  ghost predicate WorkerOk(env: Env, t: Tid, claim: int, op: WorkerOp, a: Slot) {
    match op
    case Ready(last) => (last.LostClaim? ==> a.state != claim) && (last.ReadDone? ==> EosSound(last.result))
    case AcqLoad(job) => JobWaits(job)
    case AcqCas(job) => JobWaits(job)
    case AcqCheck(job) => JobWaits(job) && Holds(t, claim, a)
    case AcqUndo(job) => JobWaits(job) && Holds(t, claim, a) && a.state != claim
    case Crit(job) =>
      && Holds(t, claim, a) && a.live && a.cur == claim
      && (match job
          case JWrite(wr) => WriterOk(a.w2c, env.cap, wr) && !wr.pc.WEnd?
          case JRead(rd) => ReaderOk(a.c2w, env.cap, rd) && rd.kind == WorkerSide && !rd.pc.REnd?
          case JClose => true)
    case Releasing(job) =>
      && Holds(t, claim, a) && a.live && a.cur == claim
      && (match job
          case JWrite(wr) => 0 <= wr.off <= |wr.src|
          case JRead(rd) => rd.n > 0 && rd.kind == WorkerSide && rd.pc.REnd? && ResultOk(rd, rd.pc.result) && EosSound(rd.pc.result)
          case JClose => true)
    case ErrClose(j, code, detail) =>
      j >= 1 ==> claim in a.errBy && (a.clean ==> CleanErr(t, claim, j, code, detail, a))
  }

  ghost predicate Holds(t: Tid, claim: int, a: Slot) {
    a.holder == Some(t) && a.reservation == claim
  }

  ghost predicate JobWaits(job: Job) {
    match job
    case JWrite(wr) => 0 <= wr.off < |wr.src| && wr.pc == WHead
    case JRead(rd) => rd.n > 0 && rd.kind == WorkerSide && rd.pc == RHead
    case JClose => true
  }

  // A clean error close that has stored its first j lanes.
  ghost predicate CleanErr(t: Tid, claim: int, j: nat, code: int, detail: int, a: Slot)
    requires claim in a.errBy
  {
    && a.errBy[claim] == t
    && (j <= 2 ==> claim !in a.errLog)
    && (a.live && a.cur == claim ==> a.termCode == code && (j >= 2 ==> a.termDetail == detail))
  }

  ghost predicate ObsOk(env: Env, obs: ObsPc, a: Slot) {
    match obs
    case OClaim(c) => c in env.published
    case OCode(c) => c in env.published && Seen(a, c)
    case ODetail(c, code) =>
      && c in env.published && Seen(a, c)
      && (a.clean && a.state == c ==> a.errLog[c].code == code)
    case OState2(c, code, detail) =>
      && c in env.published && Seen(a, c)
      && (a.clean && a.state == c ==> a.errLog[c] == Terminal(code, detail))
    case OClaim2(c, code, detail) => Settled(a, c, code, detail)
    case OGot(c, code, detail) => Settled(a, c, code, detail)
    case _ => true
  }

  // The token of claim c was seen; as long as c is still current it stays.
  ghost predicate Seen(a: Slot, c: int) {
    a.state == c ==> c in a.errLog && (a.clean ==> a.termClaim == c)
  }

  ghost predicate Settled(a: Slot, c: int, code: int, detail: int) {
    c in a.errLog && (a.clean ==> a.errLog[c] == Terminal(code, detail))
  }

  // -------------------------------------------------------------------------
  // A step keeps the slot's invariant and the acting thread's knowledge

  lemma {:induction false} OpenerOwn(env: Env, t: Tid, id: int, k: nat, pc: OpenPc, a: Slot)
    requires SlotInv(env, a) && OpenerOk(env, t, id, pc, a)
    ensures var (b, th') := OpenerStep(t, id, k, pc, a);
            var env' := env.(published := env.published + PublishedBy(Opening(id, k, pc)));
            SlotInv(env', b) && (th'.slot == k ==> ThreadOk(env', t, th', b))
  {
  }

  lemma {:induction false} ClientOwn(env: Env, t: Tid, th: Thread, a: Slot, th': Thread, b: Slot)
    requires SlotInv(env, a) && th.Client? && ThreadOk(env, t, th, a) && SlotStep(env, t, th, a, th', b)
    ensures SlotInv(env, b) && ThreadOk(env, t, th', b)
  {
    if ClientWrites(env, th, a, th', b) {
      ClientWritesOwn(env, t, th, a, th', b);
    } else if ClientReads(env, th, a, th', b) {
      ClientReadsOwn(env, t, th, a, th', b);
    }
  }

  lemma {:induction false} ClientWritesOwn(env: Env, t: Tid, th: Thread, a: Slot, th': Thread, b: Slot)
    requires SlotInv(env, a) && th.Client? && ThreadOk(env, t, th, a) && ClientWrites(env, th, a, th', b)
    ensures SlotInv(env, b) && ThreadOk(env, t, th', b)
  {
    if th.wr.Some? && !th.wr.value.pc.WEnd? {
      WriterStep(a.c2w, env.cap, th.wr.value);
    }
  }

  lemma {:induction false} ClientReadsOwn(env: Env, t: Tid, th: Thread, a: Slot, th': Thread, b: Slot)
    requires SlotInv(env, a) && th.Client? && ThreadOk(env, t, th, a) && ClientReads(env, th, a, th', b)
    ensures SlotInv(env, b) && ThreadOk(env, t, th', b)
  {
    if th.rd.CRead? && !th.rd.rd.pc.REnd? {
      ReaderStep(a.w2c, a.state, env.cap, th.rd.rd);
    }
  }

  lemma {:induction false} WorkerOwn(env: Env, t: Tid, th: Thread, a: Slot, th': Thread, b: Slot)
    requires SlotInv(env, a) && th.Worker? && ThreadOk(env, t, th, a) && WorkerStep(env, t, th, a, th', b)
    ensures SlotInv(env, b) && ThreadOk(env, t, th', b)
  {
    if th.op.Crit? {
      CritOwn(env, t, th.claim, a, th.op.job);
    } else if th.op.ErrClose? {
      ErrOwn(env, t, th.claim, a, th.op.j, th.op.code, th.op.detail);
    } else {
      LockOwn(env, t, th, a, th', b);
    }
  }

  lemma {:induction false} LockOwn(env: Env, t: Tid, th: Thread, a: Slot, th': Thread, b: Slot)
    requires th.Worker? && !th.op.Crit? && !th.op.ErrClose?
    requires SlotInv(env, a) && ThreadOk(env, t, th, a) && WorkerStep(env, t, th, a, th', b)
    ensures SlotInv(env, b) && ThreadOk(env, t, th', b)
  {
    LockKeepsSlot(env, t, th, a, th', b);
    if th.op.Releasing? || th.op.AcqUndo? || th.op.Ready? {
      ReleaseOwn(env, t, th, a, th', b);
    } else {
      AcquireOwn(env, t, th, a, th', b);
    }
  }

  // Taking and giving back the reservation lane is all that these steps do.
  lemma {:induction false} LockKeepsSlot(env: Env, t: Tid, th: Thread, a: Slot, th': Thread, b: Slot)
    requires th.Worker? && !th.op.Crit? && !th.op.ErrClose?
    requires SlotInv(env, a) && ThreadOk(env, t, th, a) && WorkerStep(env, t, th, a, th', b)
    ensures SlotInv(env, b) && b == a.(reservation := b.reservation, holder := b.holder)
  {
    hide LiveInv, WorkerOk;
    assert LiveInv(env, a) ==> LiveInv(env, b) by { SameLive(env, a, b.reservation, b.holder); }
  }

  lemma {:induction false} SameLive(env: Env, a: Slot, reservation: int, holder: Option<Tid>)
    ensures LiveInv(env, a.(reservation := reservation, holder := holder)) == LiveInv(env, a)
  {
  }

  lemma {:induction false} AcquireOwn(env: Env, t: Tid, th: Thread, a: Slot, th': Thread, b: Slot)
    requires th.Worker? && (th.op.AcqLoad? || th.op.AcqCas? || th.op.AcqCheck?)
    requires SlotInv(env, a) && ThreadOk(env, t, th, a) && WorkerStep(env, t, th, a, th', b)
    ensures ThreadOk(env, t, th', b)
  {
    hide RingInv;
  }

  lemma {:induction false} ReleaseOwn(env: Env, t: Tid, th: Thread, a: Slot, th': Thread, b: Slot)
    requires th.Worker? && (th.op.Releasing? || th.op.AcqUndo? || th.op.Ready?)
    requires SlotInv(env, a) && ThreadOk(env, t, th, a) && WorkerStep(env, t, th, a, th', b)
    ensures ThreadOk(env, t, th', b)
  {
    hide LiveInv;
  }

  lemma {:induction false} CritOwn(env: Env, t: Tid, claim: int, a: Slot, job: Job)
    requires SlotInv(env, a) && claim in env.published && WorkerOk(env, t, claim, Crit(job), a)
    requires job.JWrite? ==> WriteFits(a.w2c, job.wr)
    ensures var (b, op') := CritStep(env, claim, a, job); SlotInv(env, b) && WorkerOk(env, t, claim, op', b)
  {
    match job
    case JWrite(wr) => WriterStep(a.w2c, env.cap, wr);
    case JRead(rd) => ReaderStep(a.c2w, a.state, env.cap, rd);
    case JClose =>
  }

  lemma {:induction false} ErrOwn(env: Env, t: Tid, claim: int, a: Slot, j: nat, code: int, detail: int)
    requires SlotInv(env, a) && claim in env.published && WorkerOk(env, t, claim, ErrClose(j, code, detail), a)
    ensures var (b, op') := ErrStep(t, claim, a, j, code, detail); SlotInv(env, b) && WorkerOk(env, t, claim, op', b)
  {
  }

  lemma {:induction false} ObsOwn(env: Env, a: Slot, pc: ObsPc)
    requires SlotInv(env, a) && ObsOk(env, pc, a)
    ensures ObsOk(env, ObsStep(env.features, a, pc), a)
  {
  }

  // -------------------------------------------------------------------------
  // A step of one thread leaves the knowledge of every other thread intact

  // Two openers never carry the same claim id.
  predicate IdsApart(th: Thread, th': Thread) {
    th.Opening? && th'.Opening? ==> th.id != th'.id
  }

  lemma {:induction false} OpenerSpares(env: Env, t: Tid, th: Thread, a: Slot, u: Tid, uth: Thread)
    requires th.Opening? && t != u && IdsApart(th, uth)
    requires SlotInv(env, a) && ThreadOk(env, t, th, a) && ThreadOk(env, u, uth, a)
    ensures var env' := env.(published := env.published + PublishedBy(th));
            ThreadOk(env', u, uth, OpenerStep(t, th.id, th.slot, th.opc, a).0)
  {
    OpenerAt(env, t, th, a);
    hide SlotInv, ThreadOk;
    assert env.published + {} == env.published;
    match th.opc
    case OReset(j) => if j < RESET_LANES { ResetSpares(env, t, th, a, j, u, uth); } else { PublishSpares(env, t, th, a, u, uth); }
    case _ => LockSpares(env, t, th, a, u, uth);
  }

  lemma {:induction false} OpenerAt(env: Env, t: Tid, th: Thread, a: Slot)
    requires th.Opening? && ThreadOk(env, t, th, a)
    ensures th.opc.OReset? ==> th.opc.j <= RESET_LANES
  {
  }

  lemma {:induction false} LockSpares(env: Env, t: Tid, th: Thread, a: Slot, u: Tid, uth: Thread)
    requires th.Opening? && !th.opc.OReset? && t != u
    requires SlotInv(env, a) && ThreadOk(env, t, th, a) && ThreadOk(env, u, uth, a)
    ensures ThreadOk(env, u, uth, OpenerStep(t, th.id, th.slot, th.opc, a).0)
  {
  }

  lemma {:induction false} ResetSpares(env: Env, t: Tid, th: Thread, a: Slot, j: nat, u: Tid, uth: Thread)
    requires th.Opening? && th.opc == OReset(j) && j < RESET_LANES && t != u
    requires SlotInv(env, a) && ThreadOk(env, t, th, a) && ThreadOk(env, u, uth, a)
    ensures ThreadOk(env, u, uth, ResetLane(a, j))
  {
  }

  lemma {:induction false} PublishSpares(env: Env, t: Tid, th: Thread, a: Slot, u: Tid, uth: Thread)
    requires th.Opening? && th.opc == OReset(RESET_LANES) && t != u && IdsApart(th, uth)
    requires SlotInv(env, a) && ThreadOk(env, t, th, a) && ThreadOk(env, u, uth, a)
    ensures ThreadOk(env.(published := env.published + {th.id}), u, uth, Publish(a, t, th.id))
  {
  }

  lemma {:induction false} ClientSpares(env: Env, t: Tid, th: Thread, a: Slot, th': Thread, b: Slot, u: Tid, uth: Thread)
    requires th.Client? && t != u
    requires SlotInv(env, a) && ThreadOk(env, t, th, a) && ThreadOk(env, u, uth, a)
    requires SlotStep(env, t, th, a, th', b)
    ensures ThreadOk(env, u, uth, b)
  {
    assert env.cap > 0;
    hide SlotInv, ThreadOk, ClientWrites, ClientReads, ClientReleases;
    if ClientWrites(env, th, a, th', b) {
      ClientWriteSpares(env, t, th, a, th', b, u, uth);
    } else if ClientReads(env, th, a, th', b) {
      ClientReadSpares(env, t, th, a, th', b, u, uth);
    } else {
      ReleaseSpares(env, t, th, a, th', b, u, uth);
    }
  }

  lemma {:induction false} ClientWriteSpares(env: Env, t: Tid, th: Thread, a: Slot, th': Thread, b: Slot, u: Tid, uth: Thread)
    requires th.Client? && t != u
    requires SlotInv(env, a) && ThreadOk(env, t, th, a) && ThreadOk(env, u, uth, a)
    requires ClientWrites(env, th, a, th', b)
    ensures ThreadOk(env, u, uth, b)
  {
    if th.wr.Some? && !th.wr.value.pc.WEnd? {
      WriterStep(a.c2w, env.cap, th.wr.value);
      if uth.Worker? && uth.op.Crit? && uth.op.job.JRead? {
        WriterSparesReader(a.c2w, env.cap, th.wr.value, uth.op.job.rd);
      }
    } else {
      var none := Write([], 0, WEnd);
      if uth.Worker? && uth.op.Crit? && uth.op.job.JRead? {
        CloseSparesBoth(a.c2w, b.c2w, env.cap, none, uth.op.job.rd);
      }
    }
    hide RingInv, WriterOk, ReaderOk, WriteStep, CleanErr, ObsOk;
    if uth.Observer? { SameObs(env, a, b, uth.obs); }
  }

  lemma {:induction false} ClientReadSpares(env: Env, t: Tid, th: Thread, a: Slot, th': Thread, b: Slot, u: Tid, uth: Thread)
    requires th.Client? && t != u
    requires SlotInv(env, a) && ThreadOk(env, t, th, a) && ThreadOk(env, u, uth, a)
    requires ClientReads(env, th, a, th', b)
    ensures ThreadOk(env, u, uth, b)
  {
    if th.rd.CRead? && !th.rd.rd.pc.REnd? {
      ReaderStep(a.w2c, a.state, env.cap, th.rd.rd);
      if uth.Worker? && uth.op.Crit? && uth.op.job.JWrite? {
        ReaderSparesWriter(a.w2c, a.state, env.cap, uth.op.job.wr, th.rd.rd);
      }
    }
    hide RingInv, WriterOk, ReaderOk, ReadStep, CleanErr, ObsOk;
    if uth.Observer? { SameObs(env, a, b, uth.obs); }
  }

  lemma {:induction false} ReleaseSpares(env: Env, t: Tid, th: Thread, a: Slot, th': Thread, b: Slot, u: Tid, uth: Thread)
    requires th.Client? && t != u
    requires SlotInv(env, a) && ThreadOk(env, t, th, a) && ThreadOk(env, u, uth, a)
    requires ClientReleases(th, a, th', b)
    ensures ThreadOk(env, u, uth, b)
  {
    hide LiveInv, WriterOk, ReaderOk;
  }

  // Observers do not look at the rings' data.
  lemma {:induction false} SameObs(env: Env, a: Slot, b: Slot, obs: ObsPc)
    requires ObsOk(env, obs, a) && b == a.(c2w := b.c2w, w2c := b.w2c)
    ensures ObsOk(env, obs, b)
  {
  }

  lemma {:induction false} WorkerSpares(env: Env, t: Tid, th: Thread, a: Slot, th': Thread, b: Slot, u: Tid, uth: Thread)
    requires th.Worker? && t != u
    requires SlotInv(env, a) && ThreadOk(env, t, th, a) && ThreadOk(env, u, uth, a)
    requires WorkerStep(env, t, th, a, th', b)
    ensures ThreadOk(env, u, uth, b)
  {
    hide SlotInv, ThreadOk;
    if th.op.Crit? {
      CritSpares(env, t, th, a, b, u, uth);
    } else if th.op.ErrClose? {
      ErrSpares(env, t, th, a, b, u, uth);
    } else {
      ReservationSpares(env, t, th, a, th', b, u, uth);
    }
  }

  lemma {:induction false} ReservationSpares(env: Env, t: Tid, th: Thread, a: Slot, th': Thread, b: Slot, u: Tid, uth: Thread)
    requires th.Worker? && !th.op.Crit? && !th.op.ErrClose? && t != u
    requires SlotInv(env, a) && ThreadOk(env, t, th, a) && ThreadOk(env, u, uth, a)
    requires WorkerStep(env, t, th, a, th', b)
    ensures ThreadOk(env, u, uth, b)
  {
    hide LiveInv;
  }

  lemma {:induction false} CritSpares(env: Env, t: Tid, th: Thread, a: Slot, b: Slot, u: Tid, uth: Thread)
    requires th.Worker? && th.op.Crit? && t != u
    requires SlotInv(env, a) && ThreadOk(env, t, th, a) && ThreadOk(env, u, uth, a)
    requires th.op.job.JWrite? ==> WriteFits(a.w2c, th.op.job.wr)
    requires b == CritStep(env, th.claim, a, th.op.job).0
    ensures ThreadOk(env, u, uth, b)
  {
    match th.op.job
    case JWrite(wr) => CritWriteSpares(env, t, th, a, wr, b, u, uth);
    case JRead(rd) => CritReadSpares(env, t, th, a, rd, b, u, uth);
    case JClose => CritCloseSpares(env, t, th, a, b, u, uth);
  }

  lemma {:induction false} CritWriteSpares(env: Env, t: Tid, th: Thread, a: Slot, wr: Write, b: Slot, u: Tid, uth: Thread)
    requires th.Worker? && th.op == Crit(JWrite(wr)) && t != u
    requires SlotInv(env, a) && ThreadOk(env, t, th, a) && ThreadOk(env, u, uth, a) && WriteFits(a.w2c, wr)
    requires b == CritStep(env, th.claim, a, JWrite(wr)).0
    ensures ThreadOk(env, u, uth, b)
  {
    WriterStep(a.w2c, env.cap, wr);
    if uth.Client? && uth.rd.CRead? {
      WriterSparesReader(a.w2c, env.cap, wr, uth.rd.rd);
    }
    hide RingInv, WriterOk, ReaderOk, WriteStep, CleanErr, ObsOk;
    if uth.Observer? { SameObs(env, a, b, uth.obs); }
    if uth.Client? && uth.rd.CTerm? { SameObs(env, a, b, uth.rd.obs); }
  }

  lemma {:induction false} CritReadSpares(env: Env, t: Tid, th: Thread, a: Slot, rd: Read, b: Slot, u: Tid, uth: Thread)
    requires th.Worker? && th.op == Crit(JRead(rd)) && t != u
    requires SlotInv(env, a) && ThreadOk(env, t, th, a) && ThreadOk(env, u, uth, a)
    requires b == CritStep(env, th.claim, a, JRead(rd)).0
    ensures ThreadOk(env, u, uth, b)
  {
    ReaderStep(a.c2w, a.state, env.cap, rd);
    if uth.Client? && uth.wr.Some? {
      ReaderSparesWriter(a.c2w, a.state, env.cap, uth.wr.value, rd);
    }
    hide RingInv, WriterOk, ReaderOk, ReadStep, CleanErr, ObsOk;
    if uth.Observer? { SameObs(env, a, b, uth.obs); }
    if uth.Client? && uth.rd.CTerm? { SameObs(env, a, b, uth.rd.obs); }
  }

  lemma {:induction false} CritCloseSpares(env: Env, t: Tid, th: Thread, a: Slot, b: Slot, u: Tid, uth: Thread)
    requires th.Worker? && th.op == Crit(JClose) && t != u
    requires SlotInv(env, a) && ThreadOk(env, t, th, a) && ThreadOk(env, u, uth, a)
    requires b == CritStep(env, th.claim, a, JClose).0
    ensures ThreadOk(env, u, uth, b)
  {
    var none := Write([], 0, WEnd);
    if uth.Client? && uth.rd.CRead? { CloseSparesBoth(a.w2c, b.w2c, env.cap, none, uth.rd.rd); }
    hide LiveInv, WriterOk, ReaderOk, CleanErr, ObsOk;
    if uth.Observer? { SameObs(env, a, b, uth.obs); }
    if uth.Client? && uth.rd.CTerm? { SameObs(env, a, b, uth.rd.obs); }
  }

  lemma {:induction false} ErrSpares(env: Env, t: Tid, th: Thread, a: Slot, b: Slot, u: Tid, uth: Thread)
    requires th.Worker? && th.op.ErrClose? && t != u
    requires SlotInv(env, a) && ThreadOk(env, t, th, a) && ThreadOk(env, u, uth, a)
    requires b == ErrStep(t, th.claim, a, th.op.j, th.op.code, th.op.detail).0
    ensures ThreadOk(env, u, uth, b)
  {
    match uth
    case Client(_, _, _, _) => ErrSparesClient(env, t, th, a, b, u, uth);
    case Observer(_, obs) => ErrSparesObs(env, t, th, a, b, obs);
    case Worker(_, _, _) => ErrSparesWorker(env, t, th, a, b, u, uth);
    case Opening(_, _, _) => hide LiveInv, WorkerOk;
    case Idle =>
  }

  lemma {:induction false} ErrSparesClient(env: Env, t: Tid, th: Thread, a: Slot, b: Slot, u: Tid, uth: Thread)
    requires th.Worker? && th.op.ErrClose? && uth.Client? && t != u
    requires SlotInv(env, a) && ThreadOk(env, t, th, a) && ThreadOk(env, u, uth, a)
    requires b == ErrStep(t, th.claim, a, th.op.j, th.op.code, th.op.detail).0
    ensures ThreadOk(env, u, uth, b)
  {
    if uth.rd.CTerm? { ErrSparesObs(env, t, th, a, b, uth.rd.obs); }
    var none := Write([], 0, WEnd);
    if uth.rd.CRead? { CloseSparesBoth(a.w2c, b.w2c, env.cap, none, uth.rd.rd); }
    hide LiveInv, WriterOk, ReaderOk, ObsOk;
    assert th.op.j < 3 ==> b.w2c == a.w2c;
  }

  lemma {:induction false} ErrSparesWorker(env: Env, t: Tid, th: Thread, a: Slot, b: Slot, u: Tid, uth: Thread)
    requires th.Worker? && th.op.ErrClose? && uth.Worker? && t != u
    requires SlotInv(env, a) && ThreadOk(env, t, th, a) && ThreadOk(env, u, uth, a)
    requires b == ErrStep(t, th.claim, a, th.op.j, th.op.code, th.op.detail).0
    ensures ThreadOk(env, u, uth, b)
  {
    if uth.op.ErrClose? {
      ErrSparesErr(env, t, th, a, b, u, uth);
    } else {
      var none := Read(1, WorkerSide, REnd(Retry));
      if uth.op.Crit? && uth.op.job.JWrite? { CloseSparesBoth(a.w2c, b.w2c, env.cap, uth.op.job.wr, none); }
      hide LiveInv, WriterOk, ReaderOk, CleanErr;
    }
  }

  lemma {:induction false} ErrSparesErr(env: Env, t: Tid, th: Thread, a: Slot, b: Slot, u: Tid, uth: Thread)
    requires th.Worker? && th.op.ErrClose? && uth.Worker? && uth.op.ErrClose? && t != u
    requires SlotInv(env, a) && ThreadOk(env, t, th, a) && ThreadOk(env, u, uth, a)
    requires b == ErrStep(t, th.claim, a, th.op.j, th.op.code, th.op.detail).0
    ensures ThreadOk(env, u, uth, b)
  {
    hide LiveInv;
  }

  lemma {:induction false} ErrSparesObs(env: Env, t: Tid, th: Thread, a: Slot, b: Slot, obs: ObsPc)
    requires th.Worker? && th.op.ErrClose?
    requires SlotInv(env, a) && ThreadOk(env, t, th, a) && ObsOk(env, obs, a)
    requires b == ErrStep(t, th.claim, a, th.op.j, th.op.code, th.op.detail).0
    ensures ObsOk(env, obs, b)
  {
  }
}
