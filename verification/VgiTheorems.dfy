/** The main results about a VGI channel, for every run: any number of threads and
    slots, any interleaving of their steps. */
module VgiTheorems {
  import opened Wrappers
  import opened VgiLayout
  import opened VgiRing
  import opened VgiChannel
  import opened VgiInvariant

  ghost predicate Inv(s: Chan) {
    && s.env.cap > 0
    && s.env.opens < TWO32
    && s.claimSeq == ToInt32(s.env.opens)
    && (forall id | id in s.env.published :: Issued(s.env, id))
    && (forall k: nat | k < |s.slots| :: SlotInv(s.env, s.slots[k]))
    && (forall t | t in s.threads :: ThreadInv(s, t))
    && (forall t, u | t in s.threads && u in s.threads && t != u :: IdsApart(s.threads[t], s.threads[u]))
  }

  // The id belongs to an open that has bumped the sequence lane.
  ghost predicate Issued(env: Env, id: int) {
    id != 0 && 1 <= Ordinal(id) <= env.opens
  }

  ghost predicate ThreadInv(s: Chan, t: Tid)
    requires t in s.threads
  {
    var th := s.threads[t];
    && (th.Opening? ==>
          && Issued(s.env, th.id) && th.slot <= |s.slots|
          && (th.slot == |s.slots| ==> th.opc == OCas && th.id !in s.env.published))
    && (!th.Idle? && !th.Opening? ==> th.slot < |s.slots|)
    && (!th.Idle? && th.slot < |s.slots| ==> ThreadOk(s.env, t, th, s.slots[th.slot]))
  }

  lemma {:induction false} InitInv(s: Chan)
    requires Init(s)
    ensures Inv(s)
  {
    forall k: nat | k < |s.slots| ensures SlotInv(s.env, s.slots[k]) {
      var a := s.slots[k];
      assert a.state == 0 && !a.live;
    }
  }

  lemma {:induction false} NextInv(s: Chan, s': Chan)
    requires Inv(s) && Next(s, s')
    ensures Inv(s')
  {
    var t :| ThreadStep(s, t, s');
    if StartsOpen(s, t, s') {
      StartsOpenInv(s, t, s');
    } else if FailsOpen(s, t, s') {
    } else if k: nat :| Attaches(s, t, k, s') {
      AttachesInv(s, t, k, s');
    } else {
      var k: nat :| OnSlot(s, t, k, s');
      OnSlotInv(s, t, k, s');
    }
  }

  // A claim id is fresh when it is handed out.
  lemma {:induction false} StartsOpenInv(s: Chan, t: Tid, s': Chan)
    requires Inv(s) && t in s.threads && StartsOpen(s, t, s')
    ensures Inv(s')
  {
    var n := s.env.opens + 1;
    OrdinalInverts(n);
    assert (s.claimSeq + 1) % TWO32 == n % TWO32;
    var id := s'.threads[t].id;
    assert id == ClaimId(n);
    forall u | u in s'.threads ensures ThreadInv(s', u) {
      if u != t { assert ThreadInv(s, u); ThreadOkFewerOpens(s, u, s'); }
    }
    forall u, v | u in s'.threads && v in s'.threads && u != v ensures IdsApart(s'.threads[u], s'.threads[v]) {
      assert u != t ==> ThreadInv(s, u);
      assert v != t ==> ThreadInv(s, v);
      assert u != t && v != t ==> IdsApart(s.threads[u], s.threads[v]);
    }
    forall k: nat | k < |s'.slots| ensures SlotInv(s'.env, s'.slots[k]) {
      assert SlotInv(s.env, s.slots[k]);
    }
  }

  lemma {:induction false} ThreadOkFewerOpens(s: Chan, u: Tid, s': Chan)
    requires u in s.threads && u in s'.threads && s.threads[u] == s'.threads[u] && s'.slots == s.slots
    requires s'.env == s.env.(opens := s.env.opens + 1)
    requires ThreadInv(s, u)
    ensures ThreadInv(s', u)
  {
    var th := s.threads[u];
    if !th.Idle? && th.slot < |s.slots| {
      assert ThreadOk(s'.env, u, th, s.slots[th.slot]);
    }
  }

  lemma {:induction false} AttachesInv(s: Chan, t: Tid, k: nat, s': Chan)
    requires Inv(s) && t in s.threads && Attaches(s, t, k, s')
    ensures Inv(s')
  {
    assert SlotInv(s.env, s.slots[k]);
    forall u | u in s'.threads ensures ThreadInv(s', u) {
      if u != t { assert ThreadInv(s, u); }
    }
    forall u, v | u in s'.threads && v in s'.threads && u != v ensures IdsApart(s'.threads[u], s'.threads[v]) {
      assert u != t && v != t ==> IdsApart(s.threads[u], s.threads[v]);
    }
  }

  lemma {:induction false} OnSlotInv(s: Chan, t: Tid, k: nat, s': Chan)
    requires Inv(s) && t in s.threads && OnSlot(s, t, k, s')
    ensures Inv(s')
  {
    var th := s.threads[t];
    assert ThreadInv(s, t) && SlotInv(s.env, s.slots[k]);
    OwnStep(s.env, t, th, s.slots[k], s'.threads[t], s'.slots[k]);
    assert forall id | id in PublishedBy(th) :: id == th.id;
    forall j: nat | j < |s'.slots| ensures SlotInv(s'.env, s'.slots[j]) {
      if j != k { SlotInvMorePublished(s.env, s'.env, s.slots[j]); }
    }
    forall u | u in s'.threads ensures ThreadInv(s', u) {
      assert ThreadInv(s, u);
      if u != t {
        var uth := s.threads[u];
        assert IdsApart(th, uth);
        if !uth.Idle? && uth.slot < |s.slots| {
          if uth.slot == k {
            OtherStep(s.env, t, th, s.slots[k], s'.threads[t], s'.slots[k], u, uth);
          } else {
            ThreadOkMorePublished(s.env, th, u, uth, s.slots[uth.slot]);
          }
        }
      } else {
        MovedThread(s, t, k, s');
      }
    }
    forall u, v | u in s'.threads && v in s'.threads && u != v ensures IdsApart(s'.threads[u], s'.threads[v]) {
      assert IdsApart(s.threads[u], s.threads[v]);
      assert forall w | w in {u, v} && s'.threads[w].Opening? :: s.threads[w].Opening? && s.threads[w].id == s'.threads[w].id;
    }
  }

  // What the acting thread knows, where its step may take it to the next slot.
  lemma {:induction false} MovedThread(s: Chan, t: Tid, k: nat, s': Chan)
    requires Inv(s) && t in s.threads && OnSlot(s, t, k, s')
    ensures ThreadInv(s', t)
  {
    var th, th' := s.threads[t], s'.threads[t];
    assert ThreadInv(s, t) && SlotInv(s.env, s.slots[k]);
    OwnStep(s.env, t, th, s.slots[k], th', s'.slots[k]);
  }

  lemma {:induction false} OwnStep(env: Env, t: Tid, th: Thread, a: Slot, th': Thread, b: Slot)
    requires SlotInv(env, a) && ThreadOk(env, t, th, a) && SlotStep(env, t, th, a, th', b)
    ensures var env' := env.(published := env.published + PublishedBy(th));
            && SlotInv(env', b)
            && (th'.Opening? ==> th.Opening? && th'.id == th.id && (th'.slot == th.slot || (th'.slot == th.slot + 1 && th'.opc == OCas)))
            && (!th'.Idle? && !th'.Opening? ==> th'.slot == th.slot)
            && (!th'.Idle? && th'.slot == th.slot ==> ThreadOk(env', t, th', b))
  {
    match th
    case Opening(id, k, pc) => OpenerOwn(env, t, id, k, pc, a);
    case Client(_, _, _, _) => ClientOwn(env, t, th, a, th', b); assert env.published + {} == env.published;
    case Worker(_, _, _) => WorkerOwn(env, t, th, a, th', b); assert env.published + {} == env.published;
    case Observer(_, pc) => ObsOwn(env, a, pc); assert env.published + {} == env.published;
  }

  lemma {:induction false} OtherStep(
    env: Env, t: Tid, th: Thread, a: Slot, th': Thread, b: Slot, u: Tid, uth: Thread)
    requires t != u && IdsApart(th, uth)
    requires SlotInv(env, a) && ThreadOk(env, t, th, a) && ThreadOk(env, u, uth, a)
    requires SlotStep(env, t, th, a, th', b)
    ensures ThreadOk(env.(published := env.published + PublishedBy(th)), u, uth, b)
  {
    match th
    case Opening(_, _, _) => OpenerSpares(env, t, th, a, u, uth);
    case Client(_, _, _, _) => ClientSpares(env, t, th, a, th', b, u, uth); assert env.published + {} == env.published;
    case Worker(_, _, _) => WorkerSpares(env, t, th, a, th', b, u, uth); assert env.published + {} == env.published;
    case Observer(_, _) => assert env.published + {} == env.published;
  }

  lemma {:induction false} SlotInvMorePublished(env: Env, env': Env, a: Slot)
    requires SlotInv(env, a) && env' == env.(published := env'.published)
    requires env.published <= env'.published && 0 !in env'.published
    ensures SlotInv(env', a)
  {
  }

  lemma {:induction false} ThreadOkMorePublished(env: Env, th: Thread, u: Tid, uth: Thread, a: Slot)
    requires ThreadOk(env, u, uth, a) && IdsApart(th, uth)
    ensures ThreadOk(env.(published := env.published + PublishedBy(th)), u, uth, a)
  {
  }

  // -------------------------------------------------------------------------
  // Runs

  ghost predicate IsRun(run: seq<Chan>) {
    && |run| > 0 && Init(run[0])
    && (forall i: nat | i + 1 < |run| :: Linked(run, i))
  }

  ghost predicate Linked(run: seq<Chan>, i: nat)
    requires i + 1 < |run|
  {
    Next(run[i], run[i + 1])
  }

  lemma {:induction false} RunInv(run: seq<Chan>, i: nat)
    requires IsRun(run) && i < |run|
    ensures Inv(run[i])
  {
    if i == 0 {
      InitInv(run[0]);
    } else {
      RunInv(run, i - 1);
      assert Linked(run, i - 1);
      NextInv(run[i - 1], run[i]);
    }
  }

  // The number of slots never changes and published ids stay published.
  lemma {:induction false} RunGrows(run: seq<Chan>, i: nat, j: nat)
    requires IsRun(run) && i <= j < |run|
    ensures |run[i].slots| == |run[j].slots| && run[i].env.published <= run[j].env.published
  {
    if i < j {
      RunGrows(run, i, j - 1);
      assert Linked(run, j - 1);
    }
  }

  // Who changed slot k in step i.
  lemma {:induction false} StepAt(run: seq<Chan>, i: nat, k: nat) returns (t: Tid)
    requires IsRun(run) && i + 1 < |run| && k < |run[i].slots|
    ensures |run[i + 1].slots| == |run[i].slots|
    ensures SlotInv(run[i].env, run[i].slots[k])
    ensures || run[i + 1].slots[k] == run[i].slots[k]
            || (&& t in run[i].threads && t in run[i + 1].threads
                && SlotOf(run[i].threads[t]) == Some(k)
                && ThreadOk(run[i].env, t, run[i].threads[t], run[i].slots[k])
                && SlotStep(run[i].env, t, run[i].threads[t], run[i].slots[k], run[i + 1].threads[t], run[i + 1].slots[k]))
  {
    RunInv(run, i);
    assert Linked(run, i);
    t :| ThreadStep(run[i], t, run[i + 1]);
    assert ThreadInv(run[i], t);
  }

  // What a step can do to the slot it works on.
  ghost predicate Effect(env: Env, th: Thread, a: Slot, b: Slot) {
    && (b.cur == a.cur || b.cur !in env.published)
    && (b.state == a.state || b.state == 0 || b.state !in env.published)
    && (a.state != 0 && b.state == a.state ==>
          && a.c2w.sent <= b.c2w.sent && a.c2w.recv <= b.c2w.recv
          && a.w2c.sent <= b.w2c.sent && a.w2c.recv <= b.w2c.recv)
    && CloseEffect(env, th, a, b)
  }

  // The first close of a claim stays on record, and only workers that serve the
  // current claim put its token into the close and terminal lanes.
  ghost predicate CloseEffect(env: Env, th: Thread, a: Slot, b: Slot) {
    && (a.cur in env.published && b.cur == a.cur ==>
          && (a.c2w.closedAt.Some? ==> b.c2w.closedAt == a.c2w.closedAt)
          && (a.w2c.closedAt.Some? ==> b.w2c.closedAt == a.w2c.closedAt))
    && (a.state != 0 && b.state == a.state ==>
          && (a.w2c.closed != a.state && b.w2c.closed == a.state ==> th.Worker? && th.claim == a.state)
          && (a.termClaim != a.state && b.termClaim == a.state ==> th.Worker? && th.claim == a.state))
  }

  lemma {:induction false} SlotEffect(env: Env, t: Tid, th: Thread, a: Slot, th': Thread, b: Slot)
    requires SlotInv(env, a) && ThreadOk(env, t, th, a) && SlotStep(env, t, th, a, th', b)
    ensures Effect(env, th, a, b)
  {
    match th
    case Opening(id, k, pc) => OpenerEffect(env, t, id, k, pc, a);
    case Client(_, _, _, _) => ClientEffect(env, t, th, a, th', b);
    case Worker(_, _, _) =>
      if th.op.Crit? { CritEffect(env, t, th, a, th', b); } else { LockEffect(env, t, th, a, th', b); }
    case Observer(_, _) =>
  }

  lemma {:induction false} LockEffect(env: Env, t: Tid, th: Thread, a: Slot, th': Thread, b: Slot)
    requires SlotInv(env, a) && th.Worker? && !th.op.Crit?
    requires ThreadOk(env, t, th, a) && WorkerStep(env, t, th, a, th', b)
    ensures Effect(env, th, a, b)
  {
    hide LiveInv, WorkerOk;
    match th.op
    case AcqCas(_) =>
    case Releasing(_) =>
    case ErrClose(j, code, detail) =>
      assert b.w2c == a.w2c || j >= 3;
    case _ =>
  }

  lemma {:induction false} OpenerEffect(env: Env, t: Tid, id: int, k: nat, pc: OpenPc, a: Slot)
    requires SlotInv(env, a) && OpenerOk(env, t, id, pc, a)
    ensures Effect(env, Opening(id, k, pc), a, OpenerStep(t, id, k, pc, a).0)
  {
  }

  lemma {:induction false} ClientEffect(env: Env, t: Tid, th: Thread, a: Slot, th': Thread, b: Slot)
    requires SlotInv(env, a) && th.Client? && ThreadOk(env, t, th, a) && SlotStep(env, t, th, a, th', b)
    ensures Effect(env, th, a, b)
  {
    if ClientWrites(env, th, a, th', b) {
      if th.wr.Some? && !th.wr.value.pc.WEnd? { WriterStep(a.c2w, env.cap, th.wr.value); }
    } else if ClientReads(env, th, a, th', b) {
      if th.rd.CRead? && !th.rd.rd.pc.REnd? { ReaderStep(a.w2c, a.state, env.cap, th.rd.rd); }
    }
  }

  lemma {:induction false} CritEffect(env: Env, t: Tid, th: Thread, a: Slot, th': Thread, b: Slot)
    requires SlotInv(env, a) && th.Worker? && th.op.Crit?
    requires ThreadOk(env, t, th, a) && SlotStep(env, t, th, a, th', b)
    ensures Effect(env, th, a, b)
  {
    match th.op.job
    case JWrite(wr) => WriterStep(a.w2c, env.cap, wr);
    case JRead(rd) => ReaderStep(a.c2w, a.state, env.cap, rd);
    case JClose =>
  }

  // -------------------------------------------------------------------------
  // Ownership and publication

  // t is in possession of slot k: from the publication of STATE to its release.
  predicate Owns(s: Chan, t: Tid, k: nat) {
    t in s.threads && var th := s.threads[t];
                      SlotOf(th) == Some(k) && (th.Client? || (th.Opening? && th.opc.OUnlock?))
  }

  // t has won the reservation lane of slot k and not given it back yet.
  predicate Reserves(s: Chan, t: Tid, k: nat) {
    t in s.threads && var th := s.threads[t];
                      && SlotOf(th) == Some(k)
                      && ((th.Opening? && !th.opc.OCas?)
                          || (th.Worker? && (th.op.AcqCheck? || th.op.AcqUndo? || th.op.Crit? || th.op.Releasing?)))
  }

  // In no state of any run do two threads own a slot or hold its reservation; the
  // owner's id is what STATE says.
  lemma {:induction false} SlotsAreExclusive(run: seq<Chan>, i: nat, k: nat, t: Tid, u: Tid)
    requires IsRun(run) && i < |run| && k < |run[i].slots|
    ensures Owns(run[i], t, k) && Owns(run[i], u, k) ==> t == u
    ensures Reserves(run[i], t, k) && Reserves(run[i], u, k) ==> t == u
    ensures Owns(run[i], t, k) ==> run[i].slots[k].state == run[i].threads[t].id != 0
    ensures Reserves(run[i], t, k) ==> run[i].slots[k].reservation != 0
  {
    var s := run[i];
    RunInv(run, i);
    assert SlotInv(s.env, s.slots[k]);
    assert t in s.threads ==> ThreadInv(s, t);
    assert u in s.threads ==> ThreadInv(s, u);
  }

  // The step that stores a claim id in STATE finds both rings empty and open, and
  // no stale close or terminal token can be taken for the new claim.
  lemma {:induction false} PublicationIsComplete(run: seq<Chan>, i: nat, t: Tid, k: nat)
    requires IsRun(run) && i + 1 < |run| && k < |run[i].slots|
    requires t in run[i].threads && OnSlot(run[i], t, k, run[i + 1])
    requires k < |run[i + 1].slots| && run[i + 1].slots[k].state !in {0, run[i].slots[k].state}
    ensures var a, b := run[i].slots[k], run[i + 1].slots[k];
            && a.state == 0
            && b.state == run[i].threads[t].id && b.state !in run[i].env.published
            && b.c2w.w == b.c2w.r == b.w2c.w == b.w2c.r == 0
            && b.c2w.closed == 0 && b.w2c.closed != b.state && b.termClaim != b.state
  {
    var s := run[i];
    RunInv(run, i);
    assert ThreadInv(s, t) && SlotInv(s.env, s.slots[k]);
    PublishStep(s.env, t, s.threads[t], s.slots[k], run[i + 1].threads[t], run[i + 1].slots[k]);
  }

  lemma {:induction false} PublishStep(env: Env, t: Tid, th: Thread, a: Slot, th': Thread, b: Slot)
    requires SlotInv(env, a) && ThreadOk(env, t, th, a) && SlotStep(env, t, th, a, th', b)
    requires b.state !in {0, a.state}
    ensures th.Opening? && a.state == 0 && b.state == th.id && b.state !in env.published
    ensures b.c2w.w == b.c2w.r == b.w2c.w == b.w2c.r == 0
    ensures b.c2w.closed == 0 && b.w2c.closed != b.state && b.termClaim != b.state
  {
    hide WorkerOk, CleanErr, ObsOk, EosSound, AfterRelease, AfterRead, StubStep, LiveInv, WriteStep, ReadStep, ClientReadOk, WriterOk, ReaderOk;
  }

  // Two threads that are opening slots never have the same id, and no id in use
  // or ever published is handed out again.
  lemma {:induction false} IdsAreFresh(run: seq<Chan>, i: nat, t: Tid, u: Tid)
    requires IsRun(run) && i + 1 < |run| && t in run[i].threads && StartsOpen(run[i], t, run[i + 1])
    ensures var id := run[i + 1].threads[t].id;
            && id != 0 && id !in run[i + 1].env.published
            && (u in run[i].threads && run[i].threads[u].Opening? ==> run[i].threads[u].id != id)
            && (u in run[i].threads && run[i].threads[u].Client? ==> run[i].threads[u].id != id)
  {
    var s := run[i];
    RunInv(run, i);
    RunInv(run, i + 1);
    assert ThreadInv(run[i + 1], t);
    OrdinalInverts(s.env.opens + 1);
    assert (s.claimSeq + 1) % TWO32 == (s.env.opens + 1) % TWO32;
    assert run[i + 1].threads[t].id == ClaimId(s.env.opens + 1);
    if u in s.threads { assert ThreadInv(s, u); }
  }

  // -------------------------------------------------------------------------
  // Isolation from stale workers

  predicate SamePositionsAndData(a: Slot, b: Slot) {
    && a.c2w.w == b.c2w.w && a.c2w.r == b.c2w.r && a.c2w.data == b.c2w.data
    && a.w2c.w == b.w2c.w && a.w2c.r == b.w2c.r && a.w2c.data == b.w2c.data
  }

  // Between acquire and release of claim c, STATE is c or already free.
  lemma {:induction false} ReservationPinsState(run: seq<Chan>, i: nat, t: Tid)
    requires IsRun(run) && i < |run| && t in run[i].threads
    requires run[i].threads[t].Worker? && (run[i].threads[t].op.Crit? || run[i].threads[t].op.Releasing?)
    ensures var th := run[i].threads[t];
            && th.slot < |run[i].slots|
            && run[i].slots[th.slot].reservation == th.claim
            && run[i].slots[th.slot].state in {th.claim, 0}
  {
    var s := run[i];
    RunInv(run, i);
    assert ThreadInv(s, t) && SlotInv(s.env, s.slots[s.threads[t].slot]);
  }

  // A published claim that is not the latest of its slot never becomes it again.
  lemma {:induction false} NeverCurrentAgain(run: seq<Chan>, i: nat, j: nat, k: nat, c: int)
    requires IsRun(run) && i <= j < |run| && k < |run[i].slots|
    requires c in run[i].env.published && run[i].slots[k].cur != c
    ensures k < |run[j].slots| && run[j].slots[k].cur != c
  {
    RunGrows(run, i, j);
    if i < j {
      NeverCurrentAgain(run, i, j - 1, k, c);
      RunGrows(run, i, j - 1);
      CurStep(run, j - 1, k, c);
    }
  }

  lemma {:induction false} CurStep(run: seq<Chan>, i: nat, k: nat, c: int)
    requires IsRun(run) && i + 1 < |run| && k < |run[i].slots|
    requires c in run[i].env.published && run[i].slots[k].cur != c
    ensures k < |run[i + 1].slots| && run[i + 1].slots[k].cur != c
  {
    var t := StepAt(run, i, k);
    if run[i + 1].slots[k] != run[i].slots[k] {
      SlotEffect(run[i].env, t, run[i].threads[t], run[i].slots[k], run[i + 1].threads[t], run[i + 1].slots[k]);
    }
  }

  // Once a slot has carried another claim than c, no step of a worker that serves
  // c changes a position or a data byte of that slot ever again.
  lemma {:induction false} StaleWorkersAreHarmless(run: seq<Chan>, i: nat, j: nat, k: nat, t: Tid, c: int)
    requires IsRun(run) && i <= j && j + 1 < |run| && k < |run[i].slots|
    requires c in run[i].env.published && run[i].slots[k].state !in {0, c}
    requires t in run[j].threads && run[j].threads[t].Worker? && run[j].threads[t].claim == c
    requires OnSlot(run[j], t, k, run[j + 1])
    ensures SamePositionsAndData(run[j].slots[k], run[j + 1].slots[k])
  {
    RunInv(run, i);
    RunInv(run, j);
    assert SlotInv(run[i].env, run[i].slots[k]);
    NeverCurrentAgain(run, i, j, k, c);
    var s := run[j];
    assert ThreadInv(s, t) && SlotInv(s.env, s.slots[k]);
    StaleStep(s.env, t, s.threads[t], s.slots[k], run[j + 1].threads[t], run[j + 1].slots[k]);
  }

  lemma {:induction false} StaleStep(env: Env, t: Tid, th: Thread, a: Slot, th': Thread, b: Slot)
    requires th.Worker? && SlotInv(env, a) && ThreadOk(env, t, th, a) && WorkerStep(env, t, th, a, th', b)
    requires a.cur != th.claim
    ensures SamePositionsAndData(a, b)
  {
    hide LiveInv, WriteStep, ReadStep;
  }

  // -------------------------------------------------------------------------
  // Delivery

  // In every state, on every slot in use and in both directions: what was taken is
  // a prefix of what was published, the positions count both, at most `cap` bytes
  // are under way, and each of them is still in its place.
  lemma {:induction false} DeliveryIsFifo(run: seq<Chan>, i: nat, k: nat)
    requires IsRun(run) && i < |run| && k < |run[i].slots| && run[i].slots[k].state != 0
    ensures var a, cap := run[i].slots[k], run[i].env.cap;
            Queue(a.c2w, cap) && Queue(a.w2c, cap)
  {
    RunInv(run, i);
    assert SlotInv(run[i].env, run[i].slots[k]);
  }

  ghost predicate Queue(ring: Ring, cap: int) {
    && cap > 0 && |ring.data| == cap
    && ring.recv <= ring.sent
    && ring.r == |ring.recv| && ring.w == |ring.sent|
    && 0 <= ring.w - ring.r <= cap
    && (forall p: nat | ring.r <= p < ring.w :: Cell(ring.data, p) == ring.sent[p])
  }

  // While a claim lasts, its streams only grow: nothing is lost or taken back.
  lemma {:induction false} StreamsGrow(run: seq<Chan>, i: nat, j: nat, k: nat)
    requires IsRun(run) && i <= j < |run| && k < |run[i].slots| == |run[j].slots|
    requires run[i].slots[k].state != 0 && run[j].slots[k].state == run[i].slots[k].state
    ensures var a, b := run[i].slots[k], run[j].slots[k];
            && a.c2w.sent <= b.c2w.sent && a.c2w.recv <= b.c2w.recv
            && a.w2c.sent <= b.w2c.sent && a.w2c.recv <= b.w2c.recv
  {
    if i < j {
      RunGrows(run, i, j - 1);
      RunInv(run, i);
      RunInv(run, j - 1);
      RunInv(run, j);
      var c := run[i].slots[k].state;
      assert SlotInv(run[i].env, run[i].slots[k]);
      assert SlotInv(run[j].env, run[j].slots[k]);
      assert SlotInv(run[j - 1].env, run[j - 1].slots[k]);
      if run[j - 1].slots[k].state != c {
        LostForGood(run, i, j - 1, j, k, c);
      } else {
        StreamsGrow(run, i, j - 1, k);
        StreamsStep(run, j - 1, k);
      }
    }
  }

  // A claim that was current and is not any more is never current again.
  lemma {:induction false} LostForGood(run: seq<Chan>, i: nat, j: nat, m: nat, k: nat, c: int)
    requires IsRun(run) && i <= j <= m < |run| && k < |run[i].slots|
    requires c != 0 && run[i].slots[k].state == c
    requires k < |run[j].slots| && run[j].slots[k].state != c
    ensures k < |run[m].slots| && run[m].slots[k].state != c
  {
    RunGrows(run, i, m);
    RunGrows(run, i, j);
    RunInv(run, i);
    assert SlotInv(run[i].env, run[i].slots[k]);
    if j < m {
      RunGrows(run, i, m - 1);
      LostForGood(run, i, j, m - 1, k, c);
      GoneStep(run, m - 1, k, c);
    }
  }

  lemma {:induction false} GoneStep(run: seq<Chan>, i: nat, k: nat, c: int)
    requires IsRun(run) && i + 1 < |run| && k < |run[i].slots|
    requires c != 0 && c in run[i].env.published && run[i].slots[k].state != c
    ensures k < |run[i + 1].slots| && run[i + 1].slots[k].state != c
  {
    var t := StepAt(run, i, k);
    if run[i + 1].slots[k] != run[i].slots[k] {
      SlotEffect(run[i].env, t, run[i].threads[t], run[i].slots[k], run[i + 1].threads[t], run[i + 1].slots[k]);
    }
  }

  lemma {:induction false} StreamsStep(run: seq<Chan>, i: nat, k: nat)
    requires IsRun(run) && i + 1 < |run| && k < |run[i].slots|
    requires run[i].slots[k].state != 0
    ensures k < |run[i + 1].slots|
    ensures var a, b := run[i].slots[k], run[i + 1].slots[k];
            b.state == a.state ==>
              && a.c2w.sent <= b.c2w.sent && a.c2w.recv <= b.c2w.recv
              && a.w2c.sent <= b.w2c.sent && a.w2c.recv <= b.w2c.recv
  {
    var t := StepAt(run, i, k);
    if run[i + 1].slots[k] != run[i].slots[k] {
      SlotEffect(run[i].env, t, run[i].threads[t], run[i].slots[k], run[i + 1].threads[t], run[i + 1].slots[k]);
    }
  }

  // -------------------------------------------------------------------------
  // End of stream

  // A client's read answers 0 or -3 only after a worker that served this very claim
  // closed w2c, and -3 only if one also stored a terminal error. All bytes published
  // before that close had been delivered if and only if they had been published when
  // the read loaded the write lane.
  lemma {:induction false} ClientEos(run: seq<Chan>, i: nat, t: Tid)
    requires IsRun(run) && i < |run| && t in run[i].threads
    requires run[i].threads[t].Client? && run[i].threads[t].rd.CDone?
    ensures var th := run[i].threads[t];
            match th.rd.answer
            case Got(result) => result.Eos? ==> EosExact(result)
            case TerminalError(eos) => (eos.Eos? ==> EosExact(eos)) && th.slot < |run[i].slots| && th.id in run[i].slots[th.slot].errLog
            case Nothing => true
  {
    RunInv(run, i);
    assert ThreadInv(run[i], t);
  }

  ghost predicate EosExact(eos: ReadResult)
    requires eos.Eos?
  {
    && eos.closedAt.Some? && eos.got == eos.seen
    && (Whole(eos) <==> eos.closedAt.value <= eos.seen)
  }

  // The token of a claim gets into W2C_CLOSED or TERMINAL_CLAIM only by a step of a
  // worker that serves this very claim: a stale one ends nothing newer.
  lemma {:induction false} ClosesAreOwn(run: seq<Chan>, i: nat, k: nat)
    requires IsRun(run) && i + 1 < |run| && k < |run[i].slots| == |run[i + 1].slots|
    requires var a, b := run[i].slots[k], run[i + 1].slots[k];
             && a.state != 0 && b.state == a.state
             && (|| (a.w2c.closed != a.state && b.w2c.closed == a.state)
                 || (a.termClaim != a.state && b.termClaim == a.state))
    ensures exists t :: && t in run[i].threads && run[i].threads[t].Worker?
                        && run[i].threads[t].slot == k && run[i].threads[t].claim == run[i].slots[k].state
  {
    var t := StepAt(run, i, k);
    SlotEffect(run[i].env, t, run[i].threads[t], run[i].slots[k], run[i + 1].threads[t], run[i + 1].slots[k]);
  }

  // A worker's read answers 0 on a closed ring, with the same exact condition, or
  // because its claim is over; then it is over for good.
  lemma {:induction false} WorkerEos(run: seq<Chan>, i: nat, j: nat, t: Tid)
    requires IsRun(run) && i <= j < |run| && t in run[i].threads
    requires run[i].threads[t].Worker? && run[i].threads[t].op.Ready?
    ensures var th := run[i].threads[t];
            && (th.op.last.ReadDone? && th.op.last.result.Eos? ==> EosExact(th.op.last.result))
            && th.slot < |run[i].slots| == |run[j].slots|
            && (th.op.last.LostClaim? ==> run[j].slots[th.slot].state != th.claim)
  {
    RunInv(run, i);
    RunGrows(run, i, j);
    var th := run[i].threads[t];
    assert ThreadInv(run[i], t);
    assert SlotInv(run[i].env, run[i].slots[th.slot]);
    if th.op.last.LostClaim? && i < j {
      StaysGone(run, i, j, th.slot, th.claim);
    }
  }

  lemma {:induction false} StaysGone(run: seq<Chan>, i: nat, j: nat, k: nat, c: int)
    requires IsRun(run) && i <= j < |run| && k < |run[i].slots|
    requires c != 0 && c in run[i].env.published && run[i].slots[k].state != c
    ensures k < |run[j].slots| && run[j].slots[k].state != c
  {
    if i < j {
      StaysGone(run, i, j - 1, k, c);
      RunGrows(run, i, j - 1);
      GoneStep(run, j - 1, k, c);
    }
  }

  // -------------------------------------------------------------------------
  // The terminal error as a seqlock

  // If every error close of a slot was the only one of its claim and ran while the
  // claim was current, a snapshot that is not null is the pair stored for the
  // claim read first, whatever happened to the slot between the loads.
  lemma {:induction false} TerminalSnapshot(run: seq<Chan>, i: nat, t: Tid)
    requires IsRun(run) && i < |run| && t in run[i].threads
    requires run[i].threads[t].Observer? && run[i].threads[t].obs.OGot?
    ensures var th := run[i].threads[t];
            && th.slot < |run[i].slots|
            && var a := run[i].slots[th.slot];
            && th.obs.claim in a.errLog
            && (a.clean ==> a.errLog[th.obs.claim] == Terminal(th.obs.code, th.obs.detail))
  {
    RunInv(run, i);
    assert ThreadInv(run[i], t);
  }
}
