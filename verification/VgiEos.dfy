/** A read that begins after the ring has been closed for its claim loses nothing:
    what a caller can test before the call decides whether the race is possible. */
module VgiEos {
  import opened Wrappers
  import opened VgiLayout
  import opened VgiRing
  import opened VgiChannel
  import opened VgiInvariant
  import opened VgiTheorems

  // -------------------------------------------------------------------------
  // The client

  // In state s thread t is the client of claim id on slot k.
  predicate IsClient(s: Chan, t: Tid, id: int, k: nat) {
    t in s.threads && s.threads[t].Client? && s.threads[t].id == id && s.threads[t].slot == k
  }

  // What a client's read has learnt that began after the close.
  ghost predicate LateClient(c: nat, rd: ClientRead) {
    match rd
    case CRead(op) => LateRead(c, op)
    case CTerm(_, eos) => Whole(eos)
    case CStub(_, eos) => Whole(eos)
    case CDone(Got(result)) => Whole(result)
    case CDone(TerminalError(eos)) => Whole(eos)
    case CDone(Nothing) => true
  }

  lemma {:induction false} LateClientStep(env: Env, t: Tid, th: Thread, a: Slot, th': Thread, b: Slot)
    requires SlotInv(env, a) && th.Client? && ThreadOk(env, t, th, a)
    requires ClientWrites(env, th, a, th', b) || ClientReads(env, th, a, th', b)
    requires a.w2c.closedAt.Some? && LateClient(a.w2c.closedAt.value, th.rd)
    ensures th'.Client? ==> LateClient(a.w2c.closedAt.value, th'.rd)
  {
    hide ThreadOk;
    if ClientReads(env, th, a, th', b) && th.rd.CRead? && !th.rd.rd.pc.REnd? {
      ReadsWell(env, t, th, a);
      LateStep(a.w2c, a.state, env.cap, th.rd.rd);
    }
    hide LateRead, RingInv, ReaderOk, ReadStep, WriteStep;
    EndIsLate(a.w2c.closedAt.value, th.rd);
  }

  lemma {:induction false} ReadsWell(env: Env, t: Tid, th: Thread, a: Slot)
    requires SlotInv(env, a) && th.Client? && ThreadOk(env, t, th, a) && th.rd.CRead?
    ensures env.cap > 0 && RingInv(a.w2c, env.cap) && ReaderOk(a.w2c, env.cap, th.rd.rd)
  {
    hide RingInv, ReaderOk;
  }

  lemma {:induction false} EndIsLate(c: nat, rd: ClientRead)
    requires LateClient(c, rd)
    ensures rd.CRead? && rd.rd.pc.REnd? ==> Whole(rd.rd.pc.result)
    ensures forall n, kind :: LateRead(c, Read(n, kind, RHead))
  {
  }

  // What a step of the whole system does to a client and its slot.
  lemma {:induction false} ClientLives(run: seq<Chan>, m: nat, t: Tid, id: int, k: nat)
    requires IsRun(run) && m + 1 < |run|
    requires IsClient(run[m], t, id, k) && IsClient(run[m + 1], t, id, k)
    requires k < |run[m].slots| && run[m].slots[k].w2c.closedAt.Some?
    requires LateClient(run[m].slots[k].w2c.closedAt.value, run[m].threads[t].rd)
    ensures k < |run[m + 1].slots| && run[m + 1].slots[k].w2c.closedAt == run[m].slots[k].w2c.closedAt
    ensures LateClient(run[m].slots[k].w2c.closedAt.value, run[m + 1].threads[t].rd)
  {
    var s, s' := run[m], run[m + 1];
    RunInv(run, m);
    RunInv(run, m + 1);
    RunGrows(run, m, m + 1);
    ClientAt(s, t, id, k);
    ClientAt(s', t, id, k);
    assert Linked(run, m);
    var u :| ThreadStep(s, u, s');
    var j := Moves(s, u, s');
    assert ThreadInv(s, u);
    hide Inv, ThreadOk, SlotInv, LateClient, SlotStep, ThreadStep;
    if j.Some? && j.value == k {
      SlotEffect(s.env, u, s.threads[u], s.slots[k], s'.threads[u], s'.slots[k]);
      if u == t {
        StaysClient(s.env, t, s.threads[t], s.slots[k], s'.threads[t], s'.slots[k]);
        LateClientStep(s.env, t, s.threads[t], s.slots[k], s'.threads[t], s'.slots[k]);
      }
    }
  }

  lemma {:induction false} ClientAt(s: Chan, t: Tid, id: int, k: nat)
    requires Inv(s) && IsClient(s, t, id, k)
    ensures k < |s.slots| && SlotInv(s.env, s.slots[k]) && ThreadOk(s.env, t, s.threads[t], s.slots[k])
    ensures s.slots[k].state == id == s.slots[k].cur && id in s.env.published && id != 0
  {
    assert ThreadInv(s, t);
    assert SlotInv(s.env, s.slots[k]);
  }

  // The slot that a step is on, if any; a thread that is at a slot moves only there.
  lemma {:induction false} Moves(s: Chan, u: Tid, s': Chan) returns (j: Option<nat>)
    requires ThreadStep(s, u, s')
    ensures forall t | t in s.threads && t != u :: t in s'.threads && s'.threads[t] == s.threads[t]
    ensures match j
            case Some(k) => OnSlot(s, u, k, s') && (forall i: nat | i < |s.slots| && i != k :: s'.slots[i] == s.slots[i])
            case None => s'.slots == s.slots && (s.threads[u].Idle? || s.threads[u].Opening?)
  {
    if StartsOpen(s, u, s') || FailsOpen(s, u, s') {
      j := None;
    } else if k: nat :| Attaches(s, u, k, s') {
      j := None;
    } else {
      var k: nat :| OnSlot(s, u, k, s');
      j := Some(k);
    }
  }

  lemma {:induction false} StaysClient(env: Env, t: Tid, th: Thread, a: Slot, th': Thread, b: Slot)
    requires env.cap > 0 && th.Client? && th'.Client? && SlotStep(env, t, th, a, th', b)
    ensures ClientWrites(env, th, a, th', b) || ClientReads(env, th, a, th', b)
  {
  }

  // A client whose read starts, or starts over, after W2C_CLOSED holds its claim is
  // told the end of its stream only when every byte published before the close has
  // been delivered, whoever closes again and whatever its later reads do.
  lemma {:induction false} ReadsAfterCloseAreWhole(run: seq<Chan>, i: nat, j: nat, t: Tid, id: int, k: nat)
    requires IsRun(run) && i <= j < |run|
    requires (forall m: nat | i <= m <= j :: IsClient(run[m], t, id, k)) && IsClient(run[i], t, id, k) && IsClient(run[j], t, id, k)
    requires k < |run[i].slots| && run[i].slots[k].w2c.closed == id
    requires run[i].threads[t].rd.CRead? && run[i].threads[t].rd.rd.pc.RHead?
    ensures k < |run[j].slots| && run[i].slots[k].w2c.closedAt.Some?
    ensures run[j].slots[k].w2c.closedAt == run[i].slots[k].w2c.closedAt
    ensures LateClient(run[i].slots[k].w2c.closedAt.value, run[j].threads[t].rd)
    ensures var rd := run[j].threads[t].rd;
            match rd
            case CDone(Got(result)) => Whole(result)
            case CDone(TerminalError(eos)) => Whole(eos)
            case _ => true
    decreases j - i
  {
    if i == j {
      RunInv(run, i);
      ClientAt(run[i], t, id, k);
    } else {
      ReadsAfterCloseAreWhole(run, i, j - 1, t, id, k);
      assert IsClient(run[j - 1], t, id, k) && IsClient(run[j], t, id, k);
      ClientLives(run, j - 1, t, id, k);
    }
  }

  // -------------------------------------------------------------------------
  // The worker

  predicate IsWorker(s: Chan, t: Tid, claim: int, k: nat) {
    t in s.threads && s.threads[t].Worker? && s.threads[t].claim == claim && s.threads[t].slot == k
  }

  // What a worker's read has learnt that began after the close; once its claim is
  // over it learns nothing more.
  ghost predicate LateWorker(claim: int, op: WorkerOp, a: Slot) {
    && (a.cur == claim ==> a.c2w.closedAt.Some?)
    && match op
       case Crit(JRead(rd)) => a.cur == claim && LateRead(a.c2w.closedAt.value, rd)
       case Releasing(JRead(rd)) => rd.pc.REnd? ==> Whole(rd.pc.result)
       case Ready(ReadDone(result)) => Whole(result)
       case _ => true
  }

  lemma {:induction false} LateWorkerStep(env: Env, t: Tid, th: Thread, a: Slot, th': Thread, b: Slot)
    requires SlotInv(env, a) && th.Worker? && ThreadOk(env, t, th, a) && WorkerStep(env, t, th, a, th', b)
    requires th'.Worker? && LateWorker(th.claim, th.op, a)
    requires b.cur == a.cur && (a.cur == th.claim ==> b.c2w.closedAt == a.c2w.closedAt)
    ensures LateWorker(th.claim, th'.op, b)
  {
    hide SlotInv, RingInv, ReaderOk, WriteStep;
    WorkerOwn(env, t, th, a, th', b);
    CritIsCurrent(env, t, th', b);
    if th.op.Crit? && th.op.job.JRead? {
      CritReads(env, t, th, a);
      LateStep(a.c2w, a.state, env.cap, th.op.job.rd);
    }
    hide ThreadOk, LateRead, ReadStep;
    HeadIsLate(th.op, th.claim, a);
  }

  lemma {:induction false} CritIsCurrent(env: Env, t: Tid, th: Thread, a: Slot)
    requires th.Worker? && ThreadOk(env, t, th, a)
    ensures th.op.Crit? ==> a.cur == th.claim
    ensures th.op.AcqCheck? && th.op.job.JRead? ==> th.op.job.rd.pc == RHead
  {
  }

  lemma {:induction false} CritReads(env: Env, t: Tid, th: Thread, a: Slot)
    requires SlotInv(env, a) && th.Worker? && ThreadOk(env, t, th, a) && th.op.Crit? && th.op.job.JRead?
    ensures env.cap > 0 && RingInv(a.c2w, env.cap) && ReaderOk(a.c2w, env.cap, th.op.job.rd)
  {
    hide RingInv, ReaderOk;
  }

  lemma {:induction false} HeadIsLate(op: WorkerOp, claim: int, a: Slot)
    requires LateWorker(claim, op, a)
    ensures forall c, n, kind :: LateRead(c, Read(n, kind, RHead))
    ensures forall c, rd: Read :: LateRead(c, rd) && rd.pc.REnd? ==> Whole(rd.pc.result)
  {
  }

  lemma {:induction false} WorkerKeepsClaim(env: Env, t: Tid, th: Thread, a: Slot, th': Thread, b: Slot)
    requires th.Worker? && env.cap > 0 && WorkerStep(env, t, th, a, th', b)
    ensures b.cur == a.cur
  {
    hide WriteStep, ReadStep;
  }

  // What a step of the whole system does to a worker and its slot.
  lemma {:induction false} WorkerLives(run: seq<Chan>, m: nat, t: Tid, c: int, k: nat)
    requires IsRun(run) && m + 1 < |run|
    requires IsWorker(run[m], t, c, k) && IsWorker(run[m + 1], t, c, k)
    requires k < |run[m].slots| && LateWorker(c, run[m].threads[t].op, run[m].slots[k])
    ensures k < |run[m + 1].slots| && LateWorker(c, run[m + 1].threads[t].op, run[m + 1].slots[k])
  {
    var s, s' := run[m], run[m + 1];
    RunInv(run, m);
    RunInv(run, m + 1);
    RunGrows(run, m, m + 1);
    WorkerAt(s, t, c, k);
    WorkerAt(s', t, c, k);
    assert Linked(run, m);
    var u :| ThreadStep(s, u, s');
    var j := Moves(s, u, s');
    assert ThreadInv(s, u);
    CritIsCurrent(s'.env, t, s'.threads[t], s'.slots[k]);
    hide Inv, ThreadOk, SlotInv, LateRead, ThreadStep;
    if j.Some? && j.value == k {
      SlotEffect(s.env, u, s.threads[u], s.slots[k], s'.threads[u], s'.slots[k]);
      hide SlotStep;
      if u == t {
        OwnLate(s.env, t, s.threads[t], s.slots[k], s'.threads[t], s'.slots[k]);
      }
    }
  }

  lemma {:induction false} OwnLate(env: Env, t: Tid, th: Thread, a: Slot, th': Thread, b: Slot)
    requires SlotInv(env, a) && th.Worker? && ThreadOk(env, t, th, a) && SlotStep(env, t, th, a, th', b)
    requires th'.Worker? && LateWorker(th.claim, th.op, a) && CloseEffect(env, th, a, b) && th.claim in env.published
    ensures LateWorker(th.claim, th'.op, b)
  {
    hide ThreadOk, LateWorker;
    WorkerKeepsClaim(env, t, th, a, th', b);
    NoneYet(th.claim, th.op, a);
    LateWorkerStep(env, t, th, a, th', b);
  }

  lemma {:induction false} NoneYet(claim: int, op: WorkerOp, a: Slot)
    requires LateWorker(claim, op, a)
    ensures a.cur == claim ==> a.c2w.closedAt.Some?
  {
  }

  lemma {:induction false} WorkerAt(s: Chan, t: Tid, c: int, k: nat)
    requires Inv(s) && IsWorker(s, t, c, k)
    ensures k < |s.slots| && SlotInv(s.env, s.slots[k]) && ThreadOk(s.env, t, s.threads[t], s.slots[k])
    ensures c in s.env.published
  {
    assert ThreadInv(s, t);
  }

  // A worker whose read is called after the client has closed c2w is told the end of
  // its stream only when every byte published before the close has been delivered.
  lemma {:induction false} WorkerReadsAfterCloseAreWhole(run: seq<Chan>, i: nat, j: nat, t: Tid, c: int, k: nat)
    requires IsRun(run) && i <= j < |run|
    requires (forall m: nat | i <= m <= j :: IsWorker(run[m], t, c, k)) && IsWorker(run[i], t, c, k) && IsWorker(run[j], t, c, k)
    requires k < |run[i].slots| && run[i].slots[k].c2w.closed != 0
    requires run[i].threads[t].op.AcqLoad? && run[i].threads[t].op.job.JRead?
    requires run[i].slots[k].state == c
    ensures k < |run[j].slots| && LateWorker(c, run[j].threads[t].op, run[j].slots[k])
    ensures var op := run[j].threads[t].op;
            op.Ready? && op.last.ReadDone? ==> Whole(op.last.result)
    decreases j - i
  {
    if i == j {
      RunInv(run, i);
      WorkerAt(run[i], t, c, k);
      assert SlotInv(run[i].env, run[i].slots[k]);
    } else {
      WorkerReadsAfterCloseAreWhole(run, i, j - 1, t, c, k);
      assert IsWorker(run[j - 1], t, c, k) && IsWorker(run[j], t, c, k);
      WorkerLives(run, j - 1, t, c, k);
    }
  }
}
