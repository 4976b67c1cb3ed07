/** What a call must answer when the lanes say so from its start to its end: a terminal
    error that is on record is told, the end of a closed and drained stream is told, and
    the closing operations have put on record what they were called with. */
module VgiAnswers {
  import opened Wrappers
  import opened VgiLayout
  import opened VgiRing
  import opened VgiChannel
  import opened VgiInvariant
  import opened VgiTheorems
  import opened VgiEos
  import opened VgiCalls

  // -------------------------------------------------------------------------
  // -3 is told

  // TERMINAL_CLAIM of slot k holds the id.
  predicate OnRecord(s: Chan, k: nat, id: int) {
    k < |s.slots| && s.slots[k].termClaim == id
  }

  // A read of the client of `id` that cannot end in a mere end of stream any more.
  ghost predicate WillTell(rd: ClientRead, id: int) {
    match rd
    case CRead(_) => true
    case CTerm(obs, _) => obs != ONull && ObsClaim(obs, id)
    case CStub(pc, _) => pc.SState2? ==> pc.token == id
    case CDone(Got(result)) => !result.Eos?
    case CDone(_) => true
  }

  lemma {:induction false} WillTellStep(env: Env, id: int, th: Thread, a: Slot, th': Thread, b: Slot)
    requires th.Client? && th'.Client? && env.cap > 0 && env.features % 2 == 1
    requires a.state == id != 0 && a.termClaim == id
    requires ClientWrites(env, th, a, th', b) || ClientReads(env, th, a, th', b)
    requires WillTell(th.rd, id)
    ensures WillTell(th'.rd, id)
  {
    hide WriteStep, ReadStep;
  }

  // The bit of the terminal error is set, and while the read lasts TERMINAL_CLAIM holds
  // the client's id: a read that ends with the stream answers -3 and not 0.
  lemma {:induction false} TerminalErrorIsTold(run: seq<Chan>, i: nat, j: nat, t: Tid, id: int, k: nat)
    requires IsRun(run) && ClientDuring(run, i, j, t, id, k)
    requires run[i].env.features % 2 == 1
    requires forall m: nat | i <= m <= j :: OnRecord(run[m], k, id)
    requires ReadOf(run[i], t).CRead? && ReadOf(run[i], t).rd.pc.RHead?
    ensures WillTell(ReadOf(run[j], t), id) && run[j].env.features == run[i].env.features
    ensures match ReadOf(run[j], t)
            case CDone(Got(result)) => !result.Eos?
            case _ => true
    decreases j - i
  {
    hide ThreadOk, SlotInv, IsRun, ClientWrites, ClientReads, WillTell;
    if i == j {
      assert WillTell(ReadOf(run[i], t), id) by { TellsAtFirst(ReadOf(run[i], t), id); }
    } else {
      TerminalErrorIsTold(run, i, j - 1, t, id, k);
      var own := ClientStep(run, j - 1, t, id, k);
      var s, s' := run[j - 1], run[j];
      assert OnRecord(s, k, id);
      if own {
        PositiveCap(s.env, s.slots[k]);
        WillTellStep(s.env, id, s.threads[t], s.slots[k], s'.threads[t], s'.slots[k]);
      }
    }
    TellsAtLast(ReadOf(run[j], t), id);
  }

  lemma {:induction false} PositiveCap(env: Env, a: Slot)
    requires SlotInv(env, a)
    ensures env.cap > 0
  {
  }

  lemma {:induction false} TellsAtFirst(rd: ClientRead, id: int)
    requires rd.CRead?
    ensures WillTell(rd, id)
  {
  }

  lemma {:induction false} TellsAtLast(rd: ClientRead, id: int)
    requires WillTell(rd, id)
    ensures match rd
            case CDone(Got(result)) => !result.Eos?
            case _ => true
  {
  }

  predicate IsObserver(s: Chan, t: Tid, k: nat) {
    t in s.threads && s.threads[t].Observer? && s.threads[t].slot == k
  }

  // Slot k is in use by claim c, which has its terminal error on record.
  predicate HasError(s: Chan, k: nat, c: int) {
    OnRecord(s, k, c) && s.slots[k].state == c != 0
  }

  function ObsOf(s: Chan, t: Tid): ObsPc {
    if t in s.threads && s.threads[t].Observer? then s.threads[t].obs else ONull
  }

  // stubTerminalError is not null while the claim and its error stay on record, and
  // what it gives is of that claim.
  lemma {:induction false} ObserverIsTold(run: seq<Chan>, i: nat, j: nat, t: Tid, k: nat, c: int)
    requires IsRun(run) && i <= j < |run|
    requires forall m: nat | i <= m <= j :: IsObserver(run[m], t, k) && HasError(run[m], k, c)
    requires run[i].env.features % 2 == 1 && ObsOf(run[i], t) == OFeatures
    ensures run[j].env.features == run[i].env.features
    ensures ObsOf(run[j], t) != ONull && ObsClaim(ObsOf(run[j], t), c)
    decreases j - i
  {
    if i < j {
      ObserverIsTold(run, i, j - 1, t, k, c);
      var s, s' := run[j - 1], run[j];
      assert IsObserver(s, t, k) && HasError(s, k, c);
      assert IsObserver(s', t, k);
      assert Linked(run, j - 1);
      var u :| ThreadStep(s, u, s');
      var moved := Moves(s, u, s');
      assert s'.env.features == s.env.features;
      if u == t { assert s'.threads[t].obs == ObsStep(s.env.features, s.slots[k], s.threads[t].obs); }
    } else {
      assert IsObserver(run[i], t, k);
    }
  }

  // -------------------------------------------------------------------------
  // The end of a stream is told

  // w2c of slot k is closed for the claim and every published byte has been taken.
  predicate W2cOver(s: Chan, k: nat, id: int) {
    k < |s.slots| && s.slots[k].w2c.closed == id && s.slots[k].w2c.w == s.slots[k].w2c.r
  }

  // A read that can only end with the end of the stream.
  ghost predicate WillEnd(rd: ClientRead, id: int) {
    match rd
    case CRead(op) => OpWillEnd(op, id)
    case CTerm(_, eos) => eos.Eos?
    case CStub(_, eos) => eos.Eos?
    case CDone(Got(result)) => result.Eos?
    case CDone(TerminalError(eos)) => eos.Eos?
    case CDone(Nothing) => false
  }

  ghost predicate OpWillEnd(op: Read, id: int) {
    match op.pc
    case RHead => true
    case RLoadRead(_) => true
    case RClosed(_, _) => true
    case RState(_, _, token, eos) => token == id && eos.Eos?
    case REnd(result) => result.Eos?
    case _ => false
  }

  lemma {:induction false} OpWillEndStep(ring: Ring, state: int, cap: int, op: Read)
    requires RingInv(ring, cap) && ReaderOk(ring, cap, op) && OpWillEnd(op, state)
    requires ring.w == ring.r && ring.closed != 0 && (op.kind == WorkerSide || ring.closed == state)
    ensures OpWillEnd(ReadStep(ring, state, cap, op).1, state)
  {
  }

  lemma {:induction false} WillEndStep(env: Env, t: Tid, id: int, th: Thread, a: Slot, th': Thread, b: Slot)
    requires SlotInv(env, a) && th.Client? && ThreadOk(env, t, th, a) && th'.Client?
    requires a.state == id != 0 && a.w2c.closed == id && a.w2c.w == a.w2c.r
    requires ClientWrites(env, th, a, th', b) || ClientReads(env, th, a, th', b)
    requires !th.rd.CDone? && WillEnd(th.rd, id)
    ensures WillEnd(th'.rd, id)
  {
    hide ThreadOk;
    if ClientReads(env, th, a, th', b) && th.rd.CRead? && !th.rd.rd.pc.REnd? {
      ReadsWell(env, t, th, a);
      OpWillEndStep(a.w2c, a.state, env.cap, th.rd.rd);
    }
    hide RingInv, ReaderOk, ReadStep, WriteStep, OpWillEnd;
    assert th.rd.CRead? && th.rd.rd.pc.REnd? ==> th.rd.rd.pc.result.Eos? by { EndsAsIs(th.rd, id); }
  }

  lemma {:induction false} EndsAsIs(rd: ClientRead, id: int)
    requires WillEnd(rd, id)
    ensures rd.CRead? && rd.rd.pc.REnd? ==> rd.rd.pc.result.Eos?
  {
  }

  // While W2C_CLOSED holds the client's id and nothing is left in the ring, a read can
  // only answer the end of the stream: no bytes and no WOULD_BLOCK.
  lemma {:induction false} EndIsTold(run: seq<Chan>, i: nat, j: nat, t: Tid, id: int, k: nat)
    requires IsRun(run) && ClientDuring(run, i, j, t, id, k)
    requires forall m: nat | i <= m <= j :: W2cOver(run[m], k, id)
    requires ReadOf(run[i], t).CRead? && ReadOf(run[i], t).rd.pc.RHead?
    requires forall m: nat | i <= m < j :: !ReadOf(run[m], t).CDone?
    ensures WillEnd(ReadOf(run[j], t), id)
    ensures match ReadOf(run[j], t)
            case CDone(Got(result)) => result.Eos?
            case CDone(answer) => answer.TerminalError?
            case _ => true
    decreases j - i
  {
    hide ThreadOk, SlotInv, IsRun, ClientWrites, ClientReads, OpWillEnd;
    if i == j {
      EndsAtFirst(ReadOf(run[i], t), id);
    } else {
      EndIsTold(run, i, j - 1, t, id, k);
      var own := ClientStep(run, j - 1, t, id, k);
      var s, s' := run[j - 1], run[j];
      assert W2cOver(s, k, id);
      if own { WillEndStep(s.env, t, id, s.threads[t], s.slots[k], s'.threads[t], s'.slots[k]); }
    }
  }

  lemma {:induction false} EndsAtFirst(rd: ClientRead, id: int)
    requires rd.CRead? && rd.rd.pc.RHead?
    ensures WillEnd(rd, id)
  {
  }

  // Slot k is in use by claim c, whose client has closed c2w, and all has been taken.
  predicate C2wOver(s: Chan, k: nat, c: int) {
    && k < |s.slots| && s.slots[k].state == c
    && s.slots[k].c2w.closed != 0 && s.slots[k].c2w.w == s.slots[k].c2w.r
  }

  ghost predicate JobWillEnd(op: WorkerOp, c: int) {
    match op
    case Ready(last) => last.ReadDone? && last.result.Eos?
    case ErrClose(_, _, _) => false
    case AcqUndo(_) => false
    case _ => op.job.JRead? && OpWillEnd(op.job.rd, c)
  }

  lemma {:induction false} JobWillEndStep(env: Env, t: Tid, th: Thread, a: Slot, th': Thread, b: Slot)
    requires SlotInv(env, a) && th.Worker? && HasJob(th.op) && ThreadOk(env, t, th, a) && WorkerStep(env, t, th, a, th', b)
    requires a.state == th.claim && a.c2w.closed != 0 && a.c2w.w == a.c2w.r
    requires JobWillEnd(th.op, th.claim)
    ensures JobWillEnd(th'.op, th.claim)
  {
    if th.op.Crit? { OpWillEndStep(a.c2w, a.state, env.cap, th.op.job.rd); }
    hide SlotInv, ReadStep, WriteStep, RingInv, ReaderOk;
  }

  // The same for a worker whose claim lasts: its read answers 0.
  lemma {:induction false} WorkerEndIsTold(run: seq<Chan>, i: nat, j: nat, t: Tid, c: int, k: nat)
    requires IsRun(run) && WorkerDuring(run, i, j, t, c, k)
    requires forall m: nat | i <= m <= j :: C2wOver(run[m], k, c)
    requires OpOf(run[i], t).AcqLoad? && OpOf(run[i], t).job.JRead?
    requires forall m: nat | i <= m < j :: HasJob(OpOf(run[m], t))
    ensures JobWillEnd(OpOf(run[j], t), c)
    ensures match OpOf(run[j], t)
            case Ready(last) => last.ReadDone? && last.result.Eos?
            case _ => true
    decreases j - i
  {
    hide ThreadOk, SlotInv, IsRun, WorkerStep, OpWillEnd;
    if i == j {
      RunInv(run, i);
      WorkerAt(run[i], t, c, k);
      JobEndsAtFirst(run[i].env, t, run[i].threads[t], run[i].slots[k]);
    } else {
      WorkerEndIsTold(run, i, j - 1, t, c, k);
      var own := WorkerMoves(run, j - 1, t, c, k);
      var s, s' := run[j - 1], run[j];
      assert C2wOver(s, k, c);
      if own { JobWillEndStep(s.env, t, s.threads[t], s.slots[k], s'.threads[t], s'.slots[k]); }
    }
  }

  lemma {:induction false} JobEndsAtFirst(env: Env, t: Tid, th: Thread, a: Slot)
    requires th.Worker? && ThreadOk(env, t, th, a) && th.op.AcqLoad? && th.op.job.JRead?
    ensures JobWillEnd(th.op, th.claim)
  {
  }

  // -------------------------------------------------------------------------
  // Closing

  // A step of a client that moves neither its write nor its read closes c2w, and does
  // nothing else.
  lemma {:induction false} ClientCloseCloses(env: Env, th: Thread, a: Slot, b: Slot)
    requires th.Client? && env.cap > 0 && ClientWrites(env, th, a, th, b)
    ensures b.c2w.closed != 0 && b.c2w.closedAt.Some?
    ensures b == a.(c2w := a.c2w.(closed := b.c2w.closed, closedAt := b.c2w.closedAt))
    ensures a.c2w.closedAt.Some? ==> b.c2w.closedAt == a.c2w.closedAt
    ensures a.c2w.closedAt.None? ==> b.c2w.closedAt == Some(|a.c2w.sent|)
  {
  }

  // W2C_CLOSED of slot k holds the token.
  predicate W2cToken(s: Chan, k: nat, c: int) {
    k < |s.slots| && s.slots[k].w2c.closed == c
  }

  // A worker's close that has returned true has put its claim into W2C_CLOSED.
  lemma {:induction false} WorkerCloseIsStored(run: seq<Chan>, i: nat, j: nat, t: Tid, c: int, k: nat)
    requires IsRun(run) && WorkerDuring(run, i, j, t, c, k)
    requires OpOf(run[i], t) == AcqLoad(JClose)
    requires forall m: nat | i <= m < j :: HasJob(OpOf(run[m], t))
    ensures match OpOf(run[j], t)
            case Ready(last) => last.LostClaim? || (last == Closed && exists m: nat :: i <= m <= j && W2cToken(run[m], k, c))
            case Releasing(job) => job.JClose? && exists m: nat :: i <= m <= j && W2cToken(run[m], k, c)
            case op => HasJob(op) && op.job.JClose?
    decreases j - i
  {
    hide ThreadOk, SlotInv, IsRun;
    if i < j {
      WorkerCloseIsStored(run, i, j - 1, t, c, k);
      var own := WorkerMoves(run, j - 1, t, c, k);
      var s, s' := run[j - 1], run[j];
      if own && OpOf(s, t).Crit? { assert W2cToken(s', k, c); }
      if OpOf(s, t).Releasing? {
        var m: nat :| i <= m <= j - 1 && W2cToken(run[m], k, c);
        assert i <= m <= j && W2cToken(run[m], k, c);
      }
    }
  }

  // No other worker of the slot is closing it with an error.
  predicate NoOtherError(s: Chan, t: Tid, k: nat) {
    forall u | u in s.threads && u != t && s.threads[u].Worker? && s.threads[u].slot == k :: !s.threads[u].op.ErrClose?
  }

  predicate InUse(s: Chan, k: nat, c: int) {
    k < |s.slots| && s.slots[k].state == c
  }

  // What an error close has stored so far.
  predicate StoredSo(op: WorkerOp, a: Slot, c: int, code: int, detail: int) {
    match op
    case ErrClose(j, x, y) =>
      && x == code && y == detail && j <= 3
      && (j >= 1 ==> a.termCode == code)
      && (j >= 2 ==> a.termDetail == detail)
      && (j >= 3 ==> a.termClaim == c)
    case _ => op == Ready(Closed) && a.termCode == code && a.termDetail == detail && a.termClaim == c && a.w2c.closed == c
  }

  lemma {:induction false} OthersSpareTerminal(env: Env, u: Tid, uth: Thread, a: Slot, uth': Thread, b: Slot)
    requires SlotInv(env, a) && ThreadOk(env, u, uth, a) && SlotStep(env, u, uth, a, uth', b)
    requires a.state != 0 && !(uth.Worker? && uth.op.ErrClose?)
    ensures b.termCode == a.termCode && b.termDetail == a.termDetail && b.termClaim == a.termClaim
    ensures b.w2c.closed == a.w2c.closed || b.w2c.closed == a.state
  {
    hide LiveInv, RingInv, WriterOk, ReaderOk;
  }

  // workerCloseError, over a slot that stays in use by the worker's claim and that no
  // other worker closes with an error meanwhile: the error and both tokens are on record.
  lemma {:induction false} ErrorCloseIsStored(run: seq<Chan>, i: nat, j: nat, t: Tid, c: int, k: nat, code: int, detail: int)
    requires IsRun(run) && WorkerDuring(run, i, j, t, c, k) && c != 0
    requires forall m: nat | i <= m <= j :: InUse(run[m], k, c) && NoOtherError(run[m], t, k)
    requires OpOf(run[i], t) == ErrClose(0, code, detail)
    requires forall m: nat | i <= m < j :: OpOf(run[m], t).ErrClose?
    ensures k < |run[j].slots| && StoredSo(OpOf(run[j], t), run[j].slots[k], c, code, detail)
    decreases j - i
  {
    hide ThreadOk, SlotInv, IsRun, SlotStep;
    assert InUse(run[j], k, c);
    if i < j {
      ErrorCloseIsStored(run, i, j - 1, t, c, k, code, detail);
      ErrorCloseStep(run, j - 1, t, c, k, code, detail);
    }
  }

  lemma {:induction false} ErrorCloseStep(run: seq<Chan>, m: nat, t: Tid, c: int, k: nat, code: int, detail: int)
    requires IsRun(run) && m + 1 < |run| && IsWorker(run[m], t, c, k) && IsWorker(run[m + 1], t, c, k) && c != 0
    requires InUse(run[m], k, c) && NoOtherError(run[m], t, k)
    requires OpOf(run[m], t).ErrClose? && StoredSo(OpOf(run[m], t), run[m].slots[k], c, code, detail)
    ensures k < |run[m + 1].slots| && StoredSo(OpOf(run[m + 1], t), run[m + 1].slots[k], c, code, detail)
  {
    var s, s' := run[m], run[m + 1];
    RunInv(run, m);
    RunGrows(run, m, m + 1);
    WorkerAt(s, t, c, k);
    assert Linked(run, m);
    var u :| ThreadStep(s, u, s');
    var at := Moves(s, u, s');
    assert ThreadInv(s, u);
    hide Inv, ThreadOk, SlotInv, ThreadStep, WriteStep, ReadStep, LiveInv;
    if u != t && at == Some(k) {
      OthersSpareTerminal(s.env, u, s.threads[u], s.slots[k], s'.threads[u], s'.slots[k]);
    }
  }
}
