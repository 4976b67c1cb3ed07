/** The invariant of the frame life cycle and the results it gives for every run. */
module FrameInvariant {
  import opened Wrappers
  import opened FrameLifeCycle

  // -------------------------------------------------------------------------
  // One frame

  ghost predicate FrameInv(v: View) {
    var f := v.f;
    && f.users == |f.refs|
    && f.state != NEW
    && (f.state == LOADING ==> f.writer.Some? && !f.dirty && !f.unmarked)
    && (f.state != LOADING ==> f.data == v.logical)
    && (!f.dirty && !f.unmarked ==> v.disk == v.logical)
    && (f.unmarked ==> f.writer.Some?)
    && (f.writer.Some? ==> f.readers == {} && Ref(f.writer.value, User) in f.refs)
    && (forall t | t in f.readers :: Ref(t, User) in f.refs || Ref(t, Flusher) in f.refs)
    && (f.state == EVICTING ==> forall r | r in f.refs :: r.kind != User)
  }

  // What a thread knows about the frame it works on.
  ghost predicate Knows(t: Tid, pc: Pc, v: View) {
    var f := v.f;
    match pc
    case EvTest(_, _, _) => f.state == EVICTING && f.refs == multiset{}
    case EvErase(_, _, _) => f.state == EVICTING && f.refs == multiset{} && !f.dirty
    case EvAfter(fid, ex, _) => ContOk(t, Evicting(fid, ex), v) && Flushed(Evicting(fid, ex), v)
    case LdRead(_, _) => Loads(t, v)
    case LdDone(_, _) => Loads(t, v) && f.data == v.logical
    case FxLock(_, _) => Ref(t, User) in f.refs
    case Hold(_, ex) => Fixed(t, ex, v)
    case RlDone(_, ex) => Fixed(t, ex, v) && !f.unmarked
    case FlEnter(_, k) => ContOk(t, k, v)
    case FlLock(_, k) => Flushes(t, k, v)
    case FlTest(_, k) => Flushes(t, k, v) && t in f.readers
    case FlWrite(_, k) => Flushes(t, k, v) && t in f.readers
    case FlClear(_, k) => Flushes(t, k, v) && t in f.readers && v.disk == f.data
    case FlUnlock(_, k) => Flushes(t, k, v) && t in f.readers && Flushed(k, v)
    case FlDone(_, k) => Flushes(t, k, v) && t !in f.readers && Flushed(k, v)
    case _ => true
  }

  ghost predicate Loads(t: Tid, v: View) {
    Ref(t, User) in v.f.refs && v.f.writer == Some(t) && v.f.state == LOADING
  }

  // t has the page fixed and locked.
  ghost predicate Fixed(t: Tid, ex: bool, v: View) {
    Ref(t, User) in v.f.refs && v.f.state != LOADING && if ex then v.f.writer == Some(t) else t in v.f.readers
  }

  ghost predicate ContOk(t: Tid, k: Cont, v: View) {
    k.Evicting? ==> Ref(t, Evictor) in v.f.refs && v.f.state != LOADING
  }

  ghost predicate Flushes(t: Tid, k: Cont, v: View) {
    ContOk(t, k, v) && Ref(t, Flusher) in v.f.refs
  }

  // A victim that nobody has fixed since it was chosen is clean.
  ghost predicate Flushed(k: Cont, v: View) {
    k.Evicting? && v.f.state == EVICTING ==> !v.f.dirty
  }

  function Task(pc: Pc): Pc {
    if pc.Wait? then pc.goal else pc
  }

  // What a thread may be blocked on the directory latch for.
  predicate WaitsWell(pc: Pc) {
    pc.Wait? ==> var g := pc.goal; g.FxFind? || (g.FlEnter? && g.k == Flushing) || g.LdDone? || g.RlDone? || g.FlDone?
  }

  // The page a thread is looking for.
  function Wanted(pc: Pc): Option<FrameId> {
    match pc
    case FxFind(fid, _) => Some(fid)
    case AlLoop(fid, _) => Some(fid)
    case EvPick(fid, _) => Some(fid)
    case AlDone(fid, _) => Some(fid)
    case EvTest(fid, _, _) => Some(fid)
    case EvErase(fid, _, _) => Some(fid)
    case EvAfter(fid, _, _) => Some(fid)
    case FlEnter(_, Evicting(fid, _)) => Some(fid)
    case FlLock(_, Evicting(fid, _)) => Some(fid)
    case FlTest(_, Evicting(fid, _)) => Some(fid)
    case FlWrite(_, Evicting(fid, _)) => Some(fid)
    case FlClear(_, Evicting(fid, _)) => Some(fid)
    case FlUnlock(_, Evicting(fid, _)) => Some(fid)
    case FlDone(_, Evicting(fid, _)) => Some(fid)
    case _ => None
  }

  // A step on a frame neither enters the latch nor changes the wanted page.
  predicate Follows(pc: Pc, pc': Pc) {
    && WaitsWell(pc')
    && (Inside(pc') ==> Inside(pc))
    && (Wanted(Task(pc')).Some? ==> Wanted(Task(pc')) == Wanted(Task(pc)))
  }

  lemma {:induction false} UserOwn(t: Tid, pc: Pc, v: View, pc': Pc, v': View)
    requires FrameInv(v) && Knows(t, pc, v) && UserTouch(t, pc, v, pc', v')
    ensures FrameInv(v') && Knows(t, Task(pc'), v')
  {
  }

  lemma {:induction false} LoadOwn(t: Tid, pc: Pc, v: View, pc': Pc, v': View)
    requires FrameInv(v) && Knows(t, pc, v) && LoadTouch(t, pc, v, pc', v')
    ensures FrameInv(v') && Knows(t, Task(pc'), v')
  {
  }

  lemma {:induction false} EvictOwn(t: Tid, pc: Pc, v: View, pc': Pc, v': View)
    requires FrameInv(v) && Knows(t, pc, v) && EvictTouch(t, pc, v, pc', v')
    ensures FrameInv(v') && Knows(t, Task(pc'), v')
  {
  }

  lemma {:induction false} FlushOwn(t: Tid, pc: Pc, v: View, pc': Pc, v': View)
    requires FrameInv(v) && Knows(t, pc, v) && FlushTouch(t, pc, v, pc', v')
    ensures FrameInv(v') && Knows(t, Task(pc'), v')
  {
  }

  lemma {:induction false} UserOther(t: Tid, pc: Pc, v: View, pc': Pc, v': View, u: Tid, upc: Pc)
    requires t != u && FrameInv(v) && Knows(t, pc, v) && Knows(u, Task(upc), v) && !(Inside(pc) && Inside(upc))
    requires WaitsWell(upc) && UserTouch(t, pc, v, pc', v')
    ensures Knows(u, Task(upc), v')
  {
  }

  lemma {:induction false} LoadOther(t: Tid, pc: Pc, v: View, pc': Pc, v': View, u: Tid, upc: Pc)
    requires t != u && FrameInv(v) && Knows(t, pc, v) && Knows(u, Task(upc), v) && !(Inside(pc) && Inside(upc))
    requires WaitsWell(upc) && LoadTouch(t, pc, v, pc', v')
    ensures Knows(u, Task(upc), v')
  {
  }

  lemma {:induction false} EvictOther(t: Tid, pc: Pc, v: View, pc': Pc, v': View, u: Tid, upc: Pc)
    requires t != u && FrameInv(v) && Knows(t, pc, v) && Knows(u, Task(upc), v) && !(Inside(pc) && Inside(upc))
    requires WaitsWell(upc) && EvictTouch(t, pc, v, pc', v')
    ensures Knows(u, Task(upc), v')
  {
  }

  lemma {:induction false} FlushOther(t: Tid, pc: Pc, v: View, pc': Pc, v': View, u: Tid, upc: Pc)
    requires t != u && FrameInv(v) && Knows(t, pc, v) && Knows(u, Task(upc), v) && !(Inside(pc) && Inside(upc))
    requires WaitsWell(upc) && FlushTouch(t, pc, v, pc', v')
    ensures Knows(u, Task(upc), v')
  {
  }

  lemma {:induction false} TouchFollows(t: Tid, pc: Pc, v: View, pc': Pc, v': View)
    requires Touch(t, pc, v, pc', v')
    ensures Follows(pc, pc')
  {
    hide UserTouch, LoadTouch, EvictTouch, FlushTouch, Follows;
    if UserTouch(t, pc, v, pc', v') {
      UserFollows(t, pc, v, pc', v');
    } else if LoadTouch(t, pc, v, pc', v') {
      LoadFollows(t, pc, v, pc', v');
    } else if EvictTouch(t, pc, v, pc', v') {
      EvictFollows(t, pc, v, pc', v');
    } else {
      FlushFollows(t, pc, v, pc', v');
    }
  }

  lemma {:induction false} UserFollows(t: Tid, pc: Pc, v: View, pc': Pc, v': View)
    requires UserTouch(t, pc, v, pc', v')
    ensures Follows(pc, pc')
  {
  }

  lemma {:induction false} LoadFollows(t: Tid, pc: Pc, v: View, pc': Pc, v': View)
    requires LoadTouch(t, pc, v, pc', v')
    ensures Follows(pc, pc')
  {
  }

  lemma {:induction false} EvictFollows(t: Tid, pc: Pc, v: View, pc': Pc, v': View)
    requires EvictTouch(t, pc, v, pc', v')
    ensures Follows(pc, pc')
  {
  }

  lemma {:induction false} FlushFollows(t: Tid, pc: Pc, v: View, pc': Pc, v': View)
    requires FlushTouch(t, pc, v, pc', v')
    ensures Follows(pc, pc')
  {
  }

  lemma {:induction false} TouchOwn(t: Tid, pc: Pc, v: View, pc': Pc, v': View)
    requires FrameInv(v) && Knows(t, pc, v) && Touch(t, pc, v, pc', v')
    ensures FrameInv(v') && Knows(t, Task(pc'), v')
  {
    if UserTouch(t, pc, v, pc', v') {
      UserOwn(t, pc, v, pc', v');
    } else if LoadTouch(t, pc, v, pc', v') {
      LoadOwn(t, pc, v, pc', v');
    } else if EvictTouch(t, pc, v, pc', v') {
      EvictOwn(t, pc, v, pc', v');
    } else {
      FlushOwn(t, pc, v, pc', v');
    }
  }

  lemma {:induction false} TouchOther(t: Tid, pc: Pc, v: View, pc': Pc, v': View, u: Tid, upc: Pc)
    requires t != u && FrameInv(v) && Knows(t, pc, v) && Knows(u, Task(upc), v) && !(Inside(pc) && Inside(upc))
    requires WaitsWell(upc) && Touch(t, pc, v, pc', v')
    ensures Knows(u, Task(upc), v')
  {
    if UserTouch(t, pc, v, pc', v') {
      UserOther(t, pc, v, pc', v', u, upc);
    } else if LoadTouch(t, pc, v, pc', v') {
      LoadOther(t, pc, v, pc', v', u, upc);
    } else if EvictTouch(t, pc, v, pc', v') {
      EvictOther(t, pc, v, pc', v', u, upc);
    } else {
      FlushOther(t, pc, v, pc', v', u, upc);
    }
  }

  // -------------------------------------------------------------------------
  // The whole buffer

  ghost predicate CoreInv(c: Core) {
    && c.disk.Keys == c.logical.Keys
    && DirInv(c)
    && (forall o | o in c.objs :: o < c.next && ObjInv(c, o))
    && DiskInv(c)
  }

  ghost predicate DirInv(c: Core) {
    forall fid | fid in c.dir :: c.dir[fid] in c.objs && c.objs[c.dir[fid]].fid == fid
  }

  // A page without a frame is complete in the file.
  ghost predicate DiskInv(c: Core)
    requires c.disk.Keys == c.logical.Keys
  {
    forall fid | fid in c.disk && fid !in c.dir :: c.disk[fid] == c.logical[fid]
  }

  // The directory knows every live object under the id of its page.
  ghost predicate ObjInv(c: Core, o: Oid)
    requires o in c.objs
  {
    var fid := c.objs[o].fid;
    && fid in c.disk && fid in c.logical
    && fid in c.dir && c.dir[fid] == o
    && FrameInv(ViewOf(c, o))
  }

  // The object a thread refers to and must not lose. FlushFile looks its frame up
  // only inside the latch.
  function Held(pc: Pc): Option<Oid> {
    if Task(pc).FlEnter? && Task(pc).k == Flushing then None else Target(pc)
  }

  ghost predicate PcOk(t: Tid, pc: Pc, c: Core) {
    PcShape(t, pc, c) && (Held(pc).Some? ==> HeldOk(t, pc, Held(pc).value, c))
  }

  ghost predicate PcShape(t: Tid, pc: Pc, c: Core) {
    && (Inside(pc) ==> c.latch == Some(t))
    && WaitsWell(pc)
    && (Wanted(Task(pc)).Some? ==> Wanted(Task(pc)).value in c.disk)
  }

  ghost predicate HeldOk(t: Tid, pc: Pc, o: Oid, c: Core) {
    o in c.objs && ObjInv(c, o) && Knows(t, Task(pc), ViewOf(c, o))
  }

  lemma {:induction false} LatchOnly(c: Core, c': Core)
    requires CoreInv(c) && c' == c.(latch := c'.latch)
    ensures CoreInv(c')
  {
    assert forall o | o in c.objs :: ObjInv(c, o) && ViewOf(c', o) == ViewOf(c, o) && ObjInv(c', o);
  }

  // Knowledge about a frame survives a step that leaves its view alone.
  lemma {:induction false} SameView(u: Tid, upc: Pc, p: Oid, c: Core, c': Core)
    requires HeldOk(u, upc, p, c) && p in c'.objs && c'.objs[p] == c.objs[p]
    requires var fid := c.objs[p].fid;
             && fid in c'.disk && fid in c'.logical && fid in c'.dir && c'.dir[fid] == p
             && c'.disk[fid] == c.disk[fid] && c'.logical[fid] == c.logical[fid]
    ensures HeldOk(u, upc, p, c')
  {
    assert ViewOf(c', p) == ViewOf(c, p);
  }

  lemma {:induction false} LatchSpares(t: Tid, pc: Pc, c: Core, pc': Pc, c': Core, u: Tid, upc: Pc)
    requires PcOk(u, upc, c) && LatchStep(t, pc, c, pc', c') && (Inside(upc) ==> c'.latch == Some(u))
    ensures PcOk(u, upc, c')
  {
    if Held(upc).Some? { SameView(u, upc, Held(upc).value, c, c'); }
  }

  lemma {:induction false} LatchOwn(t: Tid, pc: Pc, c: Core, pc': Pc, c': Core)
    requires PcOk(t, pc, c) && LatchStep(t, pc, c, pc', c')
    ensures PcOk(t, pc', c')
  {
    if Held(pc').Some? {
      assert pc.Wait? && Held(pc) == Held(pc') && Task(pc) == Task(pc');
      assert HeldOk(t, pc', Held(pc').value, c);
      SameView(t, pc', Held(pc').value, c, c');
    }
  }

  lemma {:induction false} SameObj(p: Oid, c: Core, c': Core)
    requires p in c.objs && ObjInv(c, p) && p in c'.objs && c'.objs[p] == c.objs[p]
    requires var fid := c.objs[p].fid;
             && fid in c'.disk && fid in c'.logical && fid in c'.dir && c'.dir[fid] == p
             && c'.disk[fid] == c.disk[fid] && c'.logical[fid] == c.logical[fid]
    ensures ObjInv(c', p)
  {
    assert ViewOf(c', p) == ViewOf(c, p);
  }

  // A step on frame o leaves the views of all other frames alone.
  lemma {:induction false} WithViewInv(c: Core, o: Oid, v: View, latch: Option<Tid>)
    requires CoreInv(c) && o in c.objs && v.f.fid == c.objs[o].fid && FrameInv(v)
    ensures var c' := WithView(c, o, v).(latch := latch);
            CoreInv(c') && ObjInv(c', o) && ViewOf(c', o) == v
  {
    var c' := WithView(c, o, v).(latch := latch);
    assert ObjInv(c, o);
    WithViewMaps(c, o, v, latch);
    forall p | p in c'.objs ensures p < c'.next && ObjInv(c', p) {
      WithViewObj(c, o, v, latch, p);
    }
    assert ViewOf(c', o) == v;
  }

  lemma {:induction false} WithViewMaps(c: Core, o: Oid, v: View, latch: Option<Tid>)
    requires CoreInv(c) && o in c.objs && v.f.fid == c.objs[o].fid && ObjInv(c, o)
    ensures var c' := WithView(c, o, v).(latch := latch);
            c'.disk.Keys == c'.logical.Keys && DirInv(c') && DiskInv(c')
  {
    assert c.disk.Keys + {v.f.fid} == c.disk.Keys;
  }

  lemma {:induction false} WithViewObj(c: Core, o: Oid, v: View, latch: Option<Tid>, p: Oid)
    requires CoreInv(c) && o in c.objs && v.f.fid == c.objs[o].fid && FrameInv(v) && p in c.objs
    ensures ObjInv(WithView(c, o, v).(latch := latch), p)
  {
    var c' := WithView(c, o, v).(latch := latch);
    assert ObjInv(c, o) && ObjInv(c, p);
    if p != o { SameObj(p, c, c'); } else { assert ViewOf(c', o) == v; }
  }

  lemma {:induction false} FrameOwn(t: Tid, o: Oid, pc: Pc, c: Core, pc': Pc, c': Core)
    requires CoreInv(c) && PcOk(t, pc, c) && FrameStep(t, o, pc, c, pc', c')
    ensures CoreInv(c') && PcOk(t, pc', c')
  {
    var v, v' := ViewOf(c, o), ViewOf(c', o);
    assert ObjInv(c, o);
    KnowsAtStart(t, o, pc, c, pc', c');
    TouchOwn(t, pc, v, pc', v');
    WithViewInv(c, o, v', LatchAfter(c, pc, pc'));
    ShapeOwn(t, o, pc, c, pc', c');
    if Held(pc').Some? { assert HeldOk(t, pc', o, c'); }
  }

  lemma {:induction false} ShapeOwn(t: Tid, o: Oid, pc: Pc, c: Core, pc': Pc, c': Core)
    requires PcShape(t, pc, c) && FrameStep(t, o, pc, c, pc', c')
    ensures PcShape(t, pc', c')
    ensures Held(pc').Some? ==> Held(pc') == Some(o)
  {
    TouchFollows(t, pc, ViewOf(c, o), pc', ViewOf(c', o));
  }

  lemma {:induction false} KnowsAtStart(t: Tid, o: Oid, pc: Pc, c: Core, pc': Pc, c': Core)
    requires PcOk(t, pc, c) && FrameStep(t, o, pc, c, pc', c')
    ensures Knows(t, pc, ViewOf(c, o))
  {
    if Held(pc).Some? { assert HeldOk(t, pc, o, c); }
  }

  lemma {:induction false} FrameSpares(t: Tid, o: Oid, pc: Pc, c: Core, pc': Pc, c': Core, u: Tid, upc: Pc)
    requires t != u && CoreInv(c) && PcOk(t, pc, c) && PcOk(u, upc, c) && FrameStep(t, o, pc, c, pc', c')
    ensures PcOk(u, upc, c')
  {
    InsideStep(t, o, pc, c, pc', c');
    assert PcShape(u, upc, c');
    if Held(upc).Some? {
      var p := Held(upc).value;
      assert HeldOk(u, upc, p, c);
      if p == o {
        FrameSparesSame(t, o, pc, c, pc', c', u, upc);
      } else {
        assert ObjInv(c, o);
        SameView(u, upc, p, c, c');
      }
    }
  }

  lemma {:induction false} InsideStep(t: Tid, o: Oid, pc: Pc, c: Core, pc': Pc, c': Core)
    requires FrameStep(t, o, pc, c, pc', c') && PcShape(t, pc, c)
    ensures c'.latch == c.latch || c.latch == Some(t)
    ensures c'.disk.Keys == c.disk.Keys
  {
    hide Touch;
  }

  lemma {:induction false} FrameSparesSame(t: Tid, o: Oid, pc: Pc, c: Core, pc': Pc, c': Core, u: Tid, upc: Pc)
    requires t != u && CoreInv(c) && PcOk(t, pc, c) && PcOk(u, upc, c) && FrameStep(t, o, pc, c, pc', c')
    requires Held(upc) == Some(o) && HeldOk(u, upc, o, c)
    ensures HeldOk(u, upc, o, c')
  {
    var v, v' := ViewOf(c, o), ViewOf(c', o);
    KnowsAtStart(t, o, pc, c, pc', c');
    assert !(Inside(pc) && Inside(upc));
    TouchOwn(t, pc, v, pc', v');
    TouchOther(t, pc, v, pc', v', u, upc);
    WithViewInv(c, o, v', LatchAfter(c, pc, pc'));
    assert ObjInv(c', o);
  }

  lemma {:induction false} DirectoryKeeps(t: Tid, pc: Pc, c: Core, pc': Pc, c': Core)
    requires CoreInv(c) && PcOk(t, pc, c) && DirectoryStep(t, pc, c, pc', c')
    ensures CoreInv(c') && PcOk(t, pc', c')
  {
    hide FrameInv, DirInv, DiskInv, Knows;
    if pc.AlDone? && pc.fid !in c.dir {
      CreateKeeps(t, pc.fid, pc.ex, c, c');
      CreatorKnows(t, pc.fid, pc.ex, c, c');
    } else {
      LooksKeep(t, pc, c, pc', c');
      assert Held(pc').None? && Inside(pc') ==> c'.latch == c.latch;
    }
  }

  lemma {:induction false} LooksKeep(t: Tid, pc: Pc, c: Core, pc': Pc, c': Core)
    requires CoreInv(c) && PcOk(t, pc, c) && DirectoryStep(t, pc, c, pc', c') && !(pc.AlDone? && pc.fid !in c.dir)
    ensures CoreInv(c')
  {
    match pc
    case EvErase(fid, ex, o) =>
      assert HeldOk(t, pc, o, c);
      EraseKeeps(o, c, c');
    case FlEnter(_, _) => LatchOnly(c, c');
    case _ =>
  }

  // An unused, clean frame holds nothing that the file does not.
  lemma {:induction false} EraseKeeps(o: Oid, c: Core, c': Core)
    requires CoreInv(c) && o in c.objs && c.objs[o].refs == multiset{} && !c.objs[o].dirty
    requires c' == c.(objs := c.objs - {o}, dir := c.dir - {c.objs[o].fid})
    ensures CoreInv(c')
  {
    var fid := c.objs[o].fid;
    assert ObjInv(c, o);
    assert c.objs[o].writer.None? && c.disk[fid] == c.logical[fid];
    forall p | p in c'.objs ensures p < c'.next && ObjInv(c', p) {
      assert ObjInv(c, p);
      SameObj(p, c, c');
    }
    forall g | g in c'.dir ensures c'.dir[g] in c'.objs && c'.objs[c'.dir[g]].fid == g {
      assert c.dir[g] in c.objs && c.objs[c.dir[g]].fid == g;
    }
  }

  lemma {:induction false} CreateKeeps(t: Tid, fid: FrameId, ex: bool, c: Core, c': Core)
    requires CoreInv(c) && PcOk(t, AlDone(fid, ex), c) && fid !in c.dir
    requires DirectoryStep(t, AlDone(fid, ex), c, LdRead(c.next, ex), c')
    ensures CoreInv(c')
  {
    hide FrameInv;
    assert c.next !in c.objs;
    CreatorKnows(t, fid, ex, c, c');
    assert DirInv(c') && DiskInv(c');
    forall p | p in c'.objs ensures p < c'.next && ObjInv(c', p) {
      if p != c.next { CreateSpares(t, fid, ex, c, c', p); }
    }
  }

  lemma {:induction false} CreateSpares(t: Tid, fid: FrameId, ex: bool, c: Core, c': Core, p: Oid)
    requires CoreInv(c) && fid !in c.dir && p in c.objs
    requires DirectoryStep(t, AlDone(fid, ex), c, LdRead(c.next, ex), c')
    ensures p < c'.next && ObjInv(c', p)
  {
    assert ObjInv(c, p);
    SameObj(p, c, c');
  }

  lemma {:induction false} CreatorKnows(t: Tid, fid: FrameId, ex: bool, c: Core, c': Core)
    requires CoreInv(c) && PcOk(t, AlDone(fid, ex), c) && fid !in c.dir
    requires DirectoryStep(t, AlDone(fid, ex), c, LdRead(c.next, ex), c')
    ensures PcOk(t, LdRead(c.next, ex), c') && ObjInv(c', c.next)
  {
    assert FrameInv(ViewOf(c', c.next));
    assert Knows(t, LdRead(c.next, ex), ViewOf(c', c.next));
  }

  lemma {:induction false} DirectorySpares(t: Tid, pc: Pc, c: Core, pc': Pc, c': Core, u: Tid, upc: Pc)
    requires t != u && CoreInv(c) && PcOk(t, pc, c) && PcOk(u, upc, c) && DirectoryStep(t, pc, c, pc', c')
    ensures PcOk(u, upc, c')
  {
    assert Inside(pc) && !Inside(upc);
    assert PcShape(u, upc, c');
    if Held(upc).Some? {
      var p := Held(upc).value;
      assert HeldOk(u, upc, p, c);
      assert !(pc.EvErase? && pc.o == p) by {
        UsersCount(u, upc, c, p);
        EraserSeesNone(t, pc, c);
      }
      SurvivesDirectory(t, pc, c, pc', c', p);
      SameView(u, upc, p, c, c');
    }
  }

  lemma {:induction false} EraserSeesNone(t: Tid, pc: Pc, c: Core)
    requires CoreInv(c) && PcOk(t, pc, c)
    ensures pc.EvErase? ==> pc.o in c.objs && c.objs[pc.o].users == 0
  {
    if pc.EvErase? { assert HeldOk(t, pc, pc.o, c); }
  }

  lemma {:induction false} SurvivesDirectory(t: Tid, pc: Pc, c: Core, pc': Pc, c': Core, p: Oid)
    requires CoreInv(c) && DirectoryStep(t, pc, c, pc', c')
    requires p in c.objs && !(pc.EvErase? && pc.o == p)
    ensures p in c'.objs && c'.objs[p] == c.objs[p] && c'.disk == c.disk && c'.logical == c.logical
    ensures c.objs[p].fid in c'.dir && c'.dir[c.objs[p].fid] == p
  {
    assert ObjInv(c, p);
    match pc
    case EvErase(_, _, o) => assert ObjInv(c, o);
    case AlDone(fid, _) =>
    case _ =>
  }

  // A thread that refers to a frame outside the latch is counted in its users.
  lemma {:induction false} UsersCount(u: Tid, upc: Pc, c: Core, o: Oid)
    requires CoreInv(c) && PcOk(u, upc, c) && Held(upc) == Some(o) && !Inside(upc)
    ensures c.objs[o].users > 0
  {
    assert ObjInv(c, o);
    var refs := c.objs[o].refs;
    assert exists kind :: Ref(u, kind) in refs by {
      assert Ref(u, User) in refs || Ref(u, Flusher) in refs || Ref(u, Evictor) in refs;
    }
    assert |refs| > 0;
  }

  ghost predicate Inv(s: System) {
    && CoreInv(s.core)
    && (forall t | t in s.threads :: PcOk(t, s.threads[t], s.core))
  }

  lemma {:induction false} NextInv(s: System, s': System)
    requires Inv(s) && Next(s, s')
    ensures Inv(s')
  {
    var t :| ThreadStep(s, t, s');
    var pc, pc' := s.threads[t], s'.threads[t];
    assert PcOk(t, pc, s.core);
    if LatchStep(t, pc, s.core, pc', s'.core) {
      LatchOnly(s.core, s'.core);
      LatchOwn(t, pc, s.core, pc', s'.core);
    } else if DirectoryStep(t, pc, s.core, pc', s'.core) {
      DirectoryKeeps(t, pc, s.core, pc', s'.core);
    } else {
      var o :| FrameStep(t, o, pc, s.core, pc', s'.core);
      FrameOwn(t, o, pc, s.core, pc', s'.core);
    }
    forall u | u in s'.threads ensures PcOk(u, s'.threads[u], s'.core) {
      if u != t {
        assert PcOk(u, s.threads[u], s.core);
        OthersKeep(s, t, s', u);
      }
    }
  }

  lemma {:induction false} OthersKeep(s: System, t: Tid, s': System, u: Tid)
    requires Inv(s) && ThreadStep(s, t, s') && u in s.threads && u != t
    ensures PcOk(u, s.threads[u], s'.core)
  {
    var pc, pc' := s.threads[t], s'.threads[t];
    assert PcOk(t, pc, s.core) && PcOk(u, s.threads[u], s.core);
    if LatchStep(t, pc, s.core, pc', s'.core) {
      LatchSpares(t, pc, s.core, pc', s'.core, u, s.threads[u]);
    } else if DirectoryStep(t, pc, s.core, pc', s'.core) {
      DirectorySpares(t, pc, s.core, pc', s'.core, u, s.threads[u]);
    } else {
      var o :| FrameStep(t, o, pc, s.core, pc', s'.core);
      FrameSpares(t, o, pc, s.core, pc', s'.core, u, s.threads[u]);
    }
  }

  // -------------------------------------------------------------------------
  // Results for every run

  ghost predicate IsRun(run: seq<System>) {
    && |run| > 0 && Init(run[0])
    && (forall i: nat | i + 1 < |run| :: Linked(run, i))
  }

  ghost predicate Linked(run: seq<System>, i: nat)
    requires i + 1 < |run|
  {
    Next(run[i], run[i + 1])
  }

  lemma {:induction false} RunInv(run: seq<System>, i: nat)
    requires IsRun(run) && i < |run|
    ensures Inv(run[i])
  {
    if i > 0 {
      RunInv(run, i - 1);
      assert Linked(run, i - 1);
      NextInv(run[i - 1], run[i]);
    }
  }

  // At most one frame exists per page, and the directory leads to it.
  lemma {:induction false} OneFramePerPage(run: seq<System>, i: nat, o: Oid, p: Oid)
    requires IsRun(run) && i < |run| && o in run[i].core.objs && p in run[i].core.objs
    requires run[i].core.objs[o].fid == run[i].core.objs[p].fid
    ensures o == p && run[i].core.objs[o].fid in run[i].core.dir && run[i].core.dir[run[i].core.objs[o].fid] == o
  {
    RunInv(run, i);
    assert ObjInv(run[i].core, o) && ObjInv(run[i].core, p);
  }

  // A frame disappears only while nobody uses it and while the file holds all of
  // its users' bytes; whoever waits for it, has it fixed, loads it or flushes it
  // keeps it.
  lemma {:induction false} RemovalIsSafe(run: seq<System>, i: nat, o: Oid)
    requires IsRun(run) && i + 1 < |run|
    requires o in run[i].core.objs && o !in run[i + 1].core.objs
    ensures var c, fid := run[i].core, run[i].core.objs[o].fid;
            && c.objs[o].users == 0 && c.objs[o].writer.None? && c.objs[o].readers == {}
            && fid in c.disk && fid in c.logical && c.disk[fid] == c.logical[fid]
    ensures forall u | u in run[i].threads && !Inside(run[i].threads[u]) :: Held(run[i].threads[u]) != Some(o)
  {
    var s := run[i];
    RunInv(run, i);
    assert Linked(run, i);
    var t :| ThreadStep(s, t, run[i + 1]);
    OnlyErased(t, s.threads[t], s.core, run[i + 1].threads[t], run[i + 1].core, o);
    assert PcOk(t, s.threads[t], s.core);
    ErasedIsIdle(t, s.threads[t], s.core, o);
    forall u | u in s.threads && !Inside(s.threads[u]) ensures Held(s.threads[u]) != Some(o) {
      assert PcOk(u, s.threads[u], s.core);
      if Held(s.threads[u]) == Some(o) { UsersCount(u, s.threads[u], s.core, o); }
    }
  }

  lemma {:induction false} OnlyErased(t: Tid, pc: Pc, c: Core, pc': Pc, c': Core, o: Oid)
    requires CoreStep(t, pc, c, pc', c') && o in c.objs && o !in c'.objs
    ensures pc.EvErase? && pc.o == o
  {
    hide Touch, FrameStep, DirectoryStep;
    if DirectoryStep(t, pc, c, pc', c') {
      DirectoryErases(t, pc, c, pc', c', o);
    } else if p :| FrameStep(t, p, pc, c, pc', c') {
      FrameStays(t, p, pc, c, pc', c', o);
    }
  }

  lemma {:induction false} DirectoryErases(t: Tid, pc: Pc, c: Core, pc': Pc, c': Core, o: Oid)
    requires DirectoryStep(t, pc, c, pc', c') && o in c.objs && o !in c'.objs
    ensures pc.EvErase? && pc.o == o
  {
  }

  lemma {:induction false} FrameStays(t: Tid, p: Oid, pc: Pc, c: Core, pc': Pc, c': Core, o: Oid)
    requires FrameStep(t, p, pc, c, pc', c') && o in c.objs
    ensures o in c'.objs
  {
    hide Touch;
  }

  lemma {:induction false} ErasedIsIdle(t: Tid, pc: Pc, c: Core, o: Oid)
    requires CoreInv(c) && PcOk(t, pc, c) && pc.EvErase? && pc.o == o
    ensures var fid := c.objs[o].fid;
            && c.objs[o].users == 0 && c.objs[o].writer.None? && c.objs[o].readers == {}
            && fid in c.disk && fid in c.logical && c.disk[fid] == c.logical[fid]
  {
    assert HeldOk(t, pc, o, c);
    assert forall r :: Ref(r, User) !in c.objs[o].refs && Ref(r, Flusher) !in c.objs[o].refs;
  }

  // The bytes of a page: those of its frame, or of the file while it has no
  // loaded frame.
  function Content(c: Core, fid: FrameId): Page
    requires fid in c.disk
  {
    if fid in c.dir && c.dir[fid] in c.objs && c.objs[c.dir[fid]].state != LOADING then c.objs[c.dir[fid]].data
    else c.disk[fid]
  }

  // No byte is ever lost: whatever is loaded, evicted, flushed or fixed again at
  // the same time, every page reads as its users have written it, and a page with
  // a clean frame or none is complete in the file.
  lemma {:induction false} NoByteIsLost(run: seq<System>, i: nat, fid: FrameId)
    requires IsRun(run) && i < |run| && fid in run[i].core.disk
    ensures var c := run[i].core;
            && fid in c.logical && Content(c, fid) == c.logical[fid]
            && (fid !in c.dir ==> c.disk[fid] == c.logical[fid])
            && (fid in c.dir ==>
                  && c.dir[fid] in c.objs
                  && var f := c.objs[c.dir[fid]];
                     !f.dirty && !f.unmarked ==> c.disk[fid] == c.logical[fid])
  {
    RunInv(run, i);
    var c := run[i].core;
    if fid in c.dir { assert ObjInv(c, c.dir[fid]); }
  }

  // Whoever has a page fixed sees exactly the users' bytes, and a writer is alone.
  lemma {:induction false} FixedPagesAreCurrent(run: seq<System>, i: nat, t: Tid, u: Tid)
    requires IsRun(run) && i < |run| && t in run[i].threads && run[i].threads[t].Hold?
    ensures var c, o := run[i].core, run[i].threads[t].o;
            && o in c.objs && c.objs[o].users > 0
            && c.objs[o].fid in c.logical && c.objs[o].data == c.logical[c.objs[o].fid]
            && (run[i].threads[t].ex && u in run[i].threads && run[i].threads[u].Hold? && run[i].threads[u].o == o ==> u == t)
  {
    RunInv(run, i);
    var c, o := run[i].core, run[i].threads[t].o;
    assert PcOk(t, run[i].threads[t], c);
    UsersCount(t, run[i].threads[t], c, o);
    assert ObjInv(c, o);
    if u in run[i].threads && run[i].threads[u].Hold? && run[i].threads[u].o == o {
      assert PcOk(u, run[i].threads[u], c);
    }
  }
}
