/** A run in which a client is told that its stream has ended although a byte that
    was published before the close is still in the ring: `ringRead` loads the
    write lane before the closed lane, and the worker may publish and close in
    between. */
module VgiRace {
  import opened Wrappers
  import opened VgiLayout
  import opened VgiRing
  import opened VgiChannel
  import opened VgiInvariant
  import opened VgiTheorems

  ghost predicate Reachable(s: Chan) {
    exists run: seq<Chan> :: IsRun(run) && run[|run| - 1] == s
  }

  lemma {:induction false} ReachNext(s: Chan, s': Chan)
    requires Reachable(s) && Next(s, s')
    ensures Reachable(s')
  {
    hide Init, Next;
    var run: seq<Chan> :| IsRun(run) && run[|run| - 1] == s;
    var run' := run + [s'];
    forall i: nat | i + 1 < |run'| ensures Linked(run', i) {
      if i + 1 < |run| { assert Linked(run, i); }
    }
    assert IsRun(run');
  }

  const CLIENT: Tid := 0
  const NONE: set<int> := {}
  const WORKER: Tid := 1

  // A channel with one slot, two-byte rings and two threads.
  function System(published: set<int>, a: Slot, cl: Thread, wk: Thread): Chan {
    Chan(Env(2, 1, 1, published), 1, [a], map[CLIENT := cl, WORKER := wk])
  }

  lemma {:induction false} ClientGoes(p: set<int>, a: Slot, cl: Thread, wk: Thread, cl': Thread, b: Slot)
    requires Reachable(System(p, a, cl, wk)) && SlotOf(cl) == Some(0)
    requires SlotStep(Env(2, 1, 1, p), CLIENT, cl, a, cl', b)
    ensures Reachable(System(p + PublishedBy(cl), b, cl', wk))
  {
    var s, s' := System(p, a, cl, wk), System(p + PublishedBy(cl), b, cl', wk);
    assert s'.threads == s.threads[CLIENT := cl'] && s'.slots == s.slots[0 := b];
    assert OnSlot(s, CLIENT, 0, s');
    assert ThreadStep(s, CLIENT, s');
    ReachNext(s, s');
  }

  lemma {:induction false} WorkerGoes(p: set<int>, a: Slot, cl: Thread, wk: Thread, wk': Thread, b: Slot)
    requires Reachable(System(p, a, cl, wk)) && wk.Worker? && wk.slot == 0
    requires SlotStep(Env(2, 1, 1, p), WORKER, wk, a, wk', b)
    ensures Reachable(System(p, b, cl, wk'))
  {
    var s, s' := System(p, a, cl, wk), System(p, b, cl, wk');
    assert s'.threads == s.threads[WORKER := wk'] && s'.slots == s.slots[0 := b];
    assert p + PublishedBy(wk) == p;
    assert OnSlot(s, WORKER, 0, s');
    assert ThreadStep(s, WORKER, s');
    ReachNext(s, s');
  }

  const EMPTY := Ring(0, 0, 0, [0, 0], [], [], None)

  const FRESH := Slot(0, 0, EMPTY, EMPTY, 0, 0, 0, 0, false, None, None, map[], map[], true)

  const OPEN := FRESH.(state := 1, cur := 1, live := true, client := Some(CLIENT))

  function Holding(rd: ClientRead): Thread {
    Client(1, 0, None, rd)
  }

  function Serving(op: WorkerOp): Thread {
    Worker(1, 0, op)
  }

  lemma {:induction false} Started()
    ensures Reachable(System({}, FRESH, Opening(1, 0, OCas), Idle))
  {
    var s0 := Chan(Env(2, 1, 0, {}), 0, [FRESH], map[CLIENT := Idle, WORKER := Idle]);
    assert IsRun([s0]) && [s0][|[s0]| - 1] == s0;
    var s1 := System({}, FRESH, Opening(1, 0, OCas), Idle);
    assert s1.threads == s0.threads[CLIENT := Opening(1, 0, OCas)];
    assert StartsOpen(s0, CLIENT, s1);
    assert ThreadStep(s0, CLIENT, s1);
    ReachNext(s0, s1);
  }

  // The client opens slot 0; the nine clearing stores find zeros.
  lemma {:induction false} Reset()
    ensures Reachable(System({}, FRESH.(reservation := 1, holder := Some(CLIENT)), Opening(1, 0, OReset(RESET_LANES)), Idle))
  {
    hide Reachable;
    Started();
    var a := FRESH.(reservation := 1, holder := Some(CLIENT));
    ClientGoes({}, FRESH, Opening(1, 0, OCas), Idle, Opening(1, 0, OCheck), a);
    ClientGoes({}, a, Opening(1, 0, OCheck), Idle, Opening(1, 0, OReset(0)), a);
    assert NONE + NONE == NONE;
    for j := 0 to RESET_LANES
      invariant Reachable(System({}, a, Opening(1, 0, OReset(j)), Idle))
    {
      assert ResetLane(a, j) == a;
      ClientGoes({}, a, Opening(1, 0, OReset(j)), Idle, Opening(1, 0, OReset(j + 1)), a);
      assert NONE + NONE == NONE;
    }
  }

  // The claim is published and a worker starts to serve it.
  lemma {:induction false} Opened()
    ensures Reachable(System({1}, OPEN, Holding(CDone(Nothing)), Serving(Ready(NoOutcome))))
  {
    hide Reachable;
    Reset();
    var a := FRESH.(reservation := 1, holder := Some(CLIENT));
    var b := OPEN.(reservation := 1, holder := Some(CLIENT));
    ClientGoes({}, a, Opening(1, 0, OReset(RESET_LANES)), Idle, Opening(1, 0, OUnlock), b);
    assert {} + {1} == {1};
    ClientGoes({1}, b, Opening(1, 0, OUnlock), Idle, Holding(CDone(Nothing)), OPEN);
    assert {1} + {} == {1};
    var s := System({1}, OPEN, Holding(CDone(Nothing)), Idle);
    var s' := System({1}, OPEN, Holding(CDone(Nothing)), Serving(Ready(NoOutcome)));
    assert s'.threads == s.threads[WORKER := Serving(Ready(NoOutcome))];
    assert Attaches(s, WORKER, 0, s');
    assert ThreadStep(s, WORKER, s');
    ReachNext(s, s');
  }

  function Early(pc: ReadPc): Thread {
    Holding(CRead(Read(4, LibClient, pc)))
  }

  const QUEUED := EMPTY.(w := 1, data := [7, 0], sent := [7])

  function Locked(a: Slot): Slot {
    a.(reservation := 1, holder := Some(WORKER))
  }

  // The client's read finds both positions at 0.
  lemma {:induction false} FoundEmpty()
    ensures Reachable(System({1}, OPEN, Early(RClosed(0, 0)), Serving(Ready(NoOutcome))))
  {
    hide Reachable;
    Opened();
    var wk := Serving(Ready(NoOutcome));
    assert {1} + {} == {1};
    ClientGoes({1}, OPEN, Holding(CDone(Nothing)), wk, Early(RHead), OPEN);
    ClientGoes({1}, OPEN, Early(RHead), wk, Early(RLoadRead(0)), OPEN);
    ClientGoes({1}, OPEN, Early(RLoadRead(0)), wk, Early(RClosed(0, 0)), OPEN);
  }

  lemma {:induction false} Acquired(a: Slot, cl: Thread, last: Outcome, job: Job)
    requires Reachable(System({1}, a, cl, Serving(Ready(last)))) && Starts(job)
    requires a.state == 1 && a.reservation == 0
    ensures Reachable(System({1}, Locked(a), cl, Serving(Crit(job))))
  {
    hide Reachable;
    WorkerGoes({1}, a, cl, Serving(Ready(last)), Serving(AcqLoad(job)), a);
    WorkerGoes({1}, a, cl, Serving(AcqLoad(job)), Serving(AcqCas(job)), a);
    WorkerGoes({1}, a, cl, Serving(AcqCas(job)), Serving(AcqCheck(job)), Locked(a));
    WorkerGoes({1}, Locked(a), cl, Serving(AcqCheck(job)), Serving(Crit(job)), Locked(a));
  }

  function Writing(off: int, pc: WritePc): Job {
    JWrite(Write([7], off, pc))
  }

  const COPIED := OPEN.(w2c := EMPTY.(data := [7, 0]))

  // Meanwhile the worker copies the byte 7 into the ring ...
  lemma {:induction false} FoundRoom()
    ensures Reachable(System({1}, Locked(OPEN), Early(RClosed(0, 0)), Serving(Crit(Writing(0, WCopy(0, 1, 0))))))
  {
    hide Reachable;
    FoundEmpty();
    var cl := Early(RClosed(0, 0));
    Acquired(OPEN, cl, NoOutcome, Writing(0, WHead));
    WorkerGoes({1}, Locked(OPEN), cl, Serving(Crit(Writing(0, WHead))), Serving(Crit(Writing(0, WLoadRead(0)))), Locked(OPEN));
    WorkerGoes({1}, Locked(OPEN), cl, Serving(Crit(Writing(0, WLoadRead(0)))), Serving(Crit(Writing(0, WCopy(0, 1, 0)))), Locked(OPEN));
  }

  lemma {:induction false} CopiedLate()
    ensures Reachable(System({1}, Locked(COPIED), Early(RClosed(0, 0)), Serving(Crit(Writing(0, WCopy(0, 1, 1))))))
  {
    hide Reachable;
    FoundRoom();
    var cl := Early(RClosed(0, 0));
    assert RingIndex(0, 1, 2, 0) == 0;
    WorkerGoes({1}, Locked(OPEN), cl, Serving(Crit(Writing(0, WCopy(0, 1, 0)))), Serving(Crit(Writing(0, WCopy(0, 1, 1)))), Locked(COPIED));
  }

  const PUBLISHED := OPEN.(w2c := QUEUED)

  // ... publishes it ...
  lemma {:induction false} PublishedLate()
    ensures Reachable(System({1}, PUBLISHED, Early(RClosed(0, 0)), Serving(Ready(Wrote(1)))))
  {
    hide Reachable;
    CopiedLate();
    var cl := Early(RClosed(0, 0));
    var op, done := Writing(0, WCopy(0, 1, 1)), Writing(1, WEnd);
    assert Subarray([7], 0, 1) == [7];
    WorkerGoes({1}, Locked(COPIED), cl, Serving(Crit(op)), Serving(Releasing(done)), Locked(PUBLISHED));
    WorkerGoes({1}, Locked(PUBLISHED), cl, Serving(Releasing(done)), Serving(Ready(Wrote(1))), PUBLISHED);
  }

  const CLOSED := OPEN.(w2c := QUEUED.(closed := 1, closedAt := Some(1)))

  // ... and closes the ring.
  lemma {:induction false} ClosedLate()
    ensures Reachable(System({1}, CLOSED, Early(RClosed(0, 0)), Serving(Ready(Closed))))
  {
    hide Reachable;
    PublishedLate();
    var cl := Early(RClosed(0, 0));
    Acquired(PUBLISHED, cl, Wrote(1), JClose);
    WorkerGoes({1}, Locked(PUBLISHED), cl, Serving(Crit(JClose)), Serving(Releasing(JClose)), Locked(CLOSED));
    WorkerGoes({1}, Locked(CLOSED), cl, Serving(Releasing(JClose)), Serving(Ready(Closed)), CLOSED);
  }

  // The client, still convinced that the ring is empty, reads the close token of
  // its own claim and reports the end of the stream: the published 7 is lost.
  lemma {:induction false} EosCanLoseBytes()
    ensures exists s: Chan :: Reachable(s) && LostByte(s)
  {
    ClosedLate();
    var eos := Eos(0, 0, Some(1));
    var wk := Serving(Ready(Closed));
    assert {1} + {} == {1};
    ClientGoes({1}, CLOSED, Early(RClosed(0, 0)), wk, Early(RState(0, 0, 1, eos)), CLOSED);
    ClientGoes({1}, CLOSED, Early(RState(0, 0, 1, eos)), wk, Early(REnd(eos)), CLOSED);
    var s := System({1}, CLOSED, Early(REnd(eos)), wk);
    assert s.threads[CLIENT] == Early(REnd(eos)) && s.slots[0] == CLOSED;
    assert LostByte(s);
  }

  predicate LostByte(s: Chan) {
    && CLIENT in s.threads && |s.slots| == 1
    && s.threads[CLIENT] == Early(REnd(Eos(0, 0, Some(1))))
    && s.slots[0].w2c.sent == [7] && s.slots[0].w2c.recv == [] && s.slots[0].w2c.closedAt == Some(1)
  }
}
