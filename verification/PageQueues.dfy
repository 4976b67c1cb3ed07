/** The FIFO and LRU lists of the page buffer, and the id stack of its open files. */
module PageQueues {
  import opened Numbers
  import opened Wrappers
  import opened PageSpec

  /** When a frame was loaded and last fixed, and how often it has been fixed. */
  datatype Hist = Hist(loadedAt: nat, lastFix: nat, fixes: nat)

  // The list without k.
  function Remove<T(==)>(q: seq<T>, k: T): seq<T> {
    if q == [] then [] else if q[0] == k then q[1..] else [q[0]] + Remove(q[1..], k)
  }

  lemma {:induction false} RemoveCuts<T>(q: seq<T>, k: T) returns (i: nat)
    ensures k !in q ==> Remove(q, k) == q
    ensures k in q ==> i < |q| && q[i] == k && k !in q[..i] && Remove(q, k) == q[..i] + q[i + 1..]
  {
    if q == [] || q[0] == k {
      i := 0;
    } else {
      var rest := q[1..];
      var j := RemoveCuts(rest, k);
      i := j + 1;
      if k in rest {
        assert q[..i] == [q[0]] + rest[..j];
        assert q[i + 1..] == rest[j + 1..];
      } else {
        assert Remove(q, k) == [q[0]] + rest == q;
      }
    }
  }

  // -------------------------------------------------------------------------
  // Queue discipline

  predicate ByLoad(fifo: seq<Key>, hist: map<Key, Hist>) {
    && (forall k | k in fifo :: k in hist && hist[k].fixes == 1)
    && (forall i, j | 0 <= i < j < |fifo| :: hist[fifo[i]].loadedAt < hist[fifo[j]].loadedAt)
  }

  predicate ByLastFix(lru: seq<Key>, hist: map<Key, Hist>) {
    && (forall k | k in lru :: k in hist && hist[k].fixes >= 2)
    && (forall i, j | 0 <= i < j < |lru| :: hist[lru[i]].lastFix < hist[lru[j]].lastFix)
  }

  // Every frame is in one of the lists: in `fifo`, in load order, while it has been
  // fixed once, and in `lru`, in the order of the last fix, from then on.
  predicate QueuesOk(keys: set<Key>, fifo: seq<Key>, lru: seq<Key>, hist: map<Key, Hist>, clock: nat) {
    && ByLoad(fifo, hist) && ByLastFix(lru, hist)
    && (forall k | k in keys :: k in fifo || k in lru)
    && (forall k | k in fifo :: k in keys)
    && (forall k | k in lru :: k in keys)
    && (forall k | k in hist :: hist[k].loadedAt < clock && hist[k].lastFix < clock)
  }

  lemma {:induction false} RemoveByLoad(q: seq<Key>, k: Key, hist: map<Key, Hist>)
    requires ByLoad(q, hist)
    ensures ByLoad(Remove(q, k), hist) && k !in Remove(q, k)
    ensures forall j | j != k :: j in Remove(q, k) <==> j in q
  {
    hide Remove;
    var i := RemoveCuts(q, k);
    if k in q {
      assert q == q[..i] + [k] + q[i + 1..];
    }
  }

  lemma {:induction false} RemoveByLastFix(q: seq<Key>, k: Key, hist: map<Key, Hist>)
    requires ByLastFix(q, hist)
    ensures ByLastFix(Remove(q, k), hist) && k !in Remove(q, k)
    ensures forall j | j != k :: j in Remove(q, k) <==> j in q
  {
    hide Remove;
    var i := RemoveCuts(q, k);
    if k in q {
      assert q == q[..i] + [k] + q[i + 1..];
    }
  }

  // A frame goes, comes, or is fixed again.
  lemma {:induction false} EraseQueues(keys: set<Key>, fifo: seq<Key>, lru: seq<Key>, hist: map<Key, Hist>, clock: nat, k: Key)
    requires QueuesOk(keys, fifo, lru, hist, clock)
    ensures QueuesOk(keys - {k}, Remove(fifo, k), Remove(lru, k), hist, clock)
  {
    RemoveByLoad(fifo, k, hist);
    RemoveByLastFix(lru, k, hist);
  }

  lemma {:induction false} LoadQueues(keys: set<Key>, fifo: seq<Key>, lru: seq<Key>, hist: map<Key, Hist>, clock: nat, k: Key)
    requires QueuesOk(keys, fifo, lru, hist, clock) && k !in keys
    ensures QueuesOk(keys + {k}, fifo + [k], lru, hist[k := Hist(clock, clock, 1)], clock + 1)
  {
  }

  lemma {:induction false} RefixQueues(keys: set<Key>, fifo: seq<Key>, lru: seq<Key>, hist: map<Key, Hist>, clock: nat, k: Key)
    requires QueuesOk(keys, fifo, lru, hist, clock) && k in keys
    ensures k in hist
    ensures var h := hist[k];
            QueuesOk(keys, Remove(fifo, k), Remove(lru, k) + [k], hist[k := Hist(h.loadedAt, clock, h.fixes + 1)], clock + 1)
  {
    hide Remove;
    RemoveByLoad(fifo, k, hist);
    RemoveByLastFix(lru, k, hist);
  }

  // A key is never in both lists.
  lemma {:induction false} OneList(keys: set<Key>, fifo: seq<Key>, lru: seq<Key>, hist: map<Key, Hist>, clock: nat, k: Key)
    requires QueuesOk(keys, fifo, lru, hist, clock)
    ensures !(k in fifo && k in lru)
  {
  }

  // -------------------------------------------------------------------------
  // The victim of an eviction

  function FirstUnpinned(q: seq<Key>, frames: Frames): Option<Key> {
    if q == [] then None
    else if q[0] in frames && frames[q[0]].users == 0 then Some(q[0])
    else FirstUnpinned(q[1..], frames)
  }

  function Victim(fifo: seq<Key>, lru: seq<Key>, frames: Frames): Option<Key> {
    var v := FirstUnpinned(fifo, frames);
    if v.Some? then v else FirstUnpinned(lru, frames)
  }

  predicate Unpinned(frames: Frames, k: Key) {
    k in frames && frames[k].users == 0
  }

  lemma {:induction false} FirstUnpinnedIsFirst(q: seq<Key>, frames: Frames) returns (i: nat)
    ensures i <= |q| && (forall j | 0 <= j < i :: !Unpinned(frames, q[j]))
    ensures match FirstUnpinned(q, frames)
            case Some(v) => i < |q| && q[i] == v && Unpinned(frames, v)
            case None => i == |q|
  {
    if q == [] || Unpinned(frames, q[0]) {
      i := 0;
    } else {
      var j := FirstUnpinnedIsFirst(q[1..], frames);
      i := j + 1;
    }
  }

  // The victim is the oldest unpinned frame among those fixed once, and if there is
  // none, the least recently fixed unpinned one; there is no victim exactly when
  // every frame is pinned.
  lemma {:induction false} VictimIsOldest(frames: Frames, fifo: seq<Key>, lru: seq<Key>, hist: map<Key, Hist>, clock: nat)
    requires QueuesOk(frames.Keys, fifo, lru, hist, clock)
    ensures match Victim(fifo, lru, frames)
            case None => forall k | k in frames :: frames[k].users > 0
            case Some(v) =>
              && Unpinned(frames, v) && v in hist
              && forall k | Unpinned(frames, k) ::
                   && k in hist
                   && if hist[v].fixes == 1 then hist[k].fixes == 1 ==> hist[v].loadedAt <= hist[k].loadedAt
                      else hist[k].fixes > 1 && hist[v].lastFix <= hist[k].lastFix
  {
    var i := FirstUnpinnedIsFirst(fifo, frames);
    var j := FirstUnpinnedIsFirst(lru, frames);
    forall k | Unpinned(frames, k)
      ensures (k in fifo && i < |fifo| && hist[fifo[i]].loadedAt <= hist[k].loadedAt)
           || (k in lru && j < |lru| && hist[lru[j]].lastFix <= hist[k].lastFix)
    {
      if k in fifo {
        var m :| 0 <= m < |fifo| && fifo[m] == k;
        assert m >= i;
      } else {
        var m :| 0 <= m < |lru| && lru[m] == k;
        assert m >= j;
      }
    }
  }

  // The buffer after it has made room, one victim at a time.
  function AfterEviction(frames: Frames, fifo: seq<Key>, lru: seq<Key>, capacity: nat): (Frames, seq<Key>, seq<Key>)
    decreases |frames|
  {
    var v := Victim(fifo, lru, frames);
    if |frames| >= capacity && v.Some? && v.value in frames then
      AfterEviction(frames - {v.value}, Remove(fifo, v.value), Remove(lru, v.value), capacity)
    else (frames, fifo, lru)
  }

  // Making room removes only unpinned frames, no more than needed, and stops early only
  // without one.
  lemma {:induction false} EvictionMakesRoom(
    frames: Frames, fifo: seq<Key>, lru: seq<Key>, hist: map<Key, Hist>, clock: nat, capacity: nat)
    requires QueuesOk(frames.Keys, fifo, lru, hist, clock)
    ensures var (frames', fifo', lru') := AfterEviction(frames, fifo, lru, capacity);
            && QueuesOk(frames'.Keys, fifo', lru', hist, clock)
            && (forall k | k in frames' :: k in frames && frames'[k] == frames[k])
            && (forall k | k in frames && k !in frames' :: frames[k].users == 0)
            && (|frames'| < capacity || forall k | k in frames' :: frames'[k].users > 0)
            && (|frames| < capacity ==> (frames', fifo', lru') == (frames, fifo, lru))
            && (|frames| >= capacity ==> |frames'| + 1 >= capacity)
    decreases |frames|
  {
    VictimIsOldest(frames, fifo, lru, hist, clock);
    var v := Victim(fifo, lru, frames);
    if |frames| >= capacity && v.Some? {
      EraseQueues(frames.Keys, fifo, lru, hist, clock, v.value);
      assert (frames - {v.value}).Keys == frames.Keys - {v.value};
      EvictionMakesRoom(frames - {v.value}, Remove(fifo, v.value), Remove(lru, v.value), hist, clock, capacity);
    }
  }

  // The same frames are pinned, and equally often.
  predicate SamePins(frames: Frames, frames': Frames) {
    && (forall k | k in frames && frames[k].users > 0 :: k in frames' && frames'[k].users == frames[k].users)
    && (forall k | k in frames' && frames'[k].users > 0 :: k in frames && frames[k].users == frames'[k].users)
  }

  // The same but for one more user of k.
  predicate OneMorePin(frames: Frames, frames': Frames, k: Key) {
    && k in frames' && frames'[k].users == (if k in frames then frames[k].users else 0) + 1
    && (forall j | j != k && j in frames && frames[j].users > 0 :: j in frames' && frames'[j].users == frames[j].users)
    && (forall j | j != k && j in frames' && frames'[j].users > 0 :: j in frames && frames[j].users == frames'[j].users)
  }

  lemma {:induction false} PinAndUnpin(frames: Frames, frames': Frames, k: Key, fr: Frame)
    requires OneMorePin(frames, frames', k) && fr.users == frames'[k].users
    ensures fr.users > 0 && SamePins(frames, frames'[k := fr.(users := fr.users - 1)])
  {
  }

  // What FixPage does to the frames and lists: a frame that is there moves to the
  // end of `lru`; a new one goes to the end of `fifo` after room was made, and then
  // the frames exceed the capacity only if every one of them is pinned.
  predicate FixEffect(
    frames: Frames, fifo: seq<Key>, lru: seq<Key>, hist: map<Key, Hist>,
    frames': Frames, fifo': seq<Key>, lru': seq<Key>, hist': map<Key, Hist>, k: Key, capacity: nat)
  {
    && k in frames' && k in hist'
    && if k in frames then
         && k in hist && hist'[k].fixes == hist[k].fixes + 1
         && frames' == frames[k := frames[k].(users := frames[k].users + 1)]
         && fifo' == Remove(fifo, k) && lru' == Remove(lru, k) + [k]
       else
         var (left, fifoLeft, lruLeft) := AfterEviction(frames, fifo, lru, capacity);
         && hist'[k].fixes == 1
         && frames' == left[k := frames'[k]] && frames'[k].users == 1 && k !in left
         && fifo' == fifoLeft + [k] && lru' == lruLeft
         && (|frames'| > capacity ==> forall j | j in frames' :: frames'[j].users > 0)
  }

  // -------------------------------------------------------------------------
  // The file directory

  const MAX_FILE_IDS := 65535

  // Names and ids are inverse to each other, and every allocated id is either live
  // or exactly once on the stack of free ids.
  predicate DirOk(files: Files, byName: map<string, nat>, free: seq<nat>, idCount: nat) {
    NamesOk(files, byName) && IdsOk(files, free, idCount)
  }

  predicate NamesOk(files: Files, byName: map<string, nat>) {
    && (forall id | id in files :: files[id].path in byName && byName[files[id].path] == id)
    && (forall path | path in byName :: byName[path] in files && files[byName[path]].path == path)
  }

  predicate IdsOk(files: Files, free: seq<nat>, idCount: nat) {
    && (forall i, j | 0 <= i < j < |free| :: free[i] != free[j])
    && (forall i | 0 <= i < |free| :: free[i] < idCount && free[i] !in files)
    && (forall id: nat | id < idCount :: id in files || id in free)
    && (forall id | id in files :: id < idCount)
    && idCount <= MAX_FILE_IDS
  }

  lemma {:induction false} DirApart(files: Files, byName: map<string, nat>, free: seq<nat>, idCount: nat)
    requires DirOk(files, byName, free, idCount)
    ensures PathsApart(files)
  {
  }
}
