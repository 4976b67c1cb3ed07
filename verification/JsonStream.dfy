/** Reading a JSON array in batches: the events of the parser, the buffer that collects
    them into documents, and the reader that hands over every n elements. */
module JsonStream {
  import opened Numbers
  import opened Wrappers
  import opened JsonTypes

  /** What the iterative parser reports; the ends of containers carry its own counts. */
  datatype Event =
    | Scalar(v: Json)
    | Key(name: string)
    | StartArray
    | EndArray(count: nat)
    | StartObject
    | EndObject(count: nat)

  function Events(v: Json): seq<Event>
    decreases v, 0
  {
    match v
    case Array(items) => [StartArray] + EventsOfAll(items) + [EndArray(|items|)]
    case Object(members) => [StartObject] + EventsOfMembers(members) + [EndObject(|members|)]
    case _ => [Scalar(v)]
  }

  function EventsOfAll(items: seq<Json>): seq<Event>
    decreases items, 1
  {
    if items == [] then [] else Events(items[0]) + EventsOfAll(items[1..])
  }

  function EventsOfMembers(members: seq<Member>): seq<Event>
    decreases members, 1
  {
    if members == [] then [] else [Key(members[0].name)] + Events(members[0].value) + EventsOfMembers(members[1..])
  }

  // -------------------------------------------------------------------------
  // The buffer

  /** `stack` is that of the document under construction: finished values, and an empty
      container for every one that has been started. */
  datatype Buffer = Buffer(stack: seq<Json>, depth: int, size: nat, done: bool)

  // Closing a container takes its elements from the stack.
  function CloseArray(stack: seq<Json>, count: nat): seq<Json> {
    if count >= |stack| then stack
    else stack[..|stack| - count - 1] + [Array(stack[|stack| - count..])]
  }

  function CloseObject(stack: seq<Json>, count: nat): seq<Json> {
    if 2 * count >= |stack| then stack
    else stack[..|stack| - 2 * count - 1] + [Object(Members(stack[|stack| - 2 * count..]))]
  }

  function Members(flat: seq<Json>): seq<Member> {
    if |flat| < 2 then []
    else [Member(if flat[0].String? then flat[0].s else "", flat[1])] + Members(flat[2..])
  }

  function Handle(b: Buffer, e: Event): Buffer {
    var size := if b.depth == 1 && (e.Scalar? || e.StartArray? || e.StartObject?) then b.size + 1 else b.size;
    match e
    case Scalar(v) => b.(stack := b.stack + [v], size := size)
    case Key(name) => b.(stack := b.stack + [String(name)])
    case StartArray => b.(stack := b.stack + [Array([])], depth := b.depth + 1, size := size)
    case StartObject => b.(stack := b.stack + [Object([])], depth := b.depth + 1, size := size)
    case EndObject(count) => b.(stack := CloseObject(b.stack, count), depth := b.depth - 1)
    case EndArray(count) =>
      if b.depth - 1 == 0 then b.(stack := CloseArray(b.stack, b.size), depth := 0, done := true)
      else b.(stack := CloseArray(b.stack, count), depth := b.depth - 1)
  }

  // The document so far, and the buffer with a new outer array. Before the end of the
  // input the outer array is closed here.
  function Flush(b: Buffer): (Json, Buffer) {
    var stack := if b.done then b.stack else CloseArray(b.stack, b.size);
    (if |stack| == 1 then stack[0] else Null, Buffer([Array([])], b.depth, 0, b.done))
  }

  const START := Buffer([], 0, 0, false)
  const BETWEEN := Buffer([Array([])], 1, 0, false)

  // -------------------------------------------------------------------------
  // Reading up to n elements

  predicate Full(b: Buffer, n: nat) {
    b.done || (b.size >= n && b.depth == 1)
  }

  function ReadN(b: Buffer, events: seq<Event>, n: nat): (Option<Json>, Buffer, seq<Event>)
    decreases |events|
  {
    if events == [] then (None, b, events)
    else
      var b' := Handle(b, events[0]);
      if Full(b', n) then
        var (doc, b'') := Flush(b');
        (Some(doc), b'', events[1..])
      else ReadN(b', events[1..], n)
  }

  lemma {:induction false} ReadEvent(b: Buffer, e: Event, rest: seq<Event>, n: nat)
    ensures ReadN(b, [e] + rest, n) ==
              var b' := Handle(b, e);
              if Full(b', n) then var (doc, b'') := Flush(b'); (Some(doc), b'', rest) else ReadN(b', rest, n)
  {
    assert ([e] + rest)[1..] == rest;
  }

  // Below the outer array a value is put on the stack and nothing else happens.
  lemma {:induction false} ReadNested(b: Buffer, v: Json, rest: seq<Event>, n: nat)
    requires b.depth >= 2 && !b.done
    ensures ReadN(b, Events(v) + rest, n) == ReadN(b.(stack := b.stack + [v]), rest, n)
    decreases v, 1
  {
    ReadContents(b, v, rest, n);
    if v.Array? || v.Object? {
      var start := if v.Array? then StartArray else StartObject;
      assert Events(v) + rest == [start] + (Events(v)[1..] + rest);
      ReadEvent(b, start, Events(v)[1..] + rest, n);
    } else {
      ReadEvent(b, Scalar(v), rest, n);
    }
  }

  // The events of a container behind the first.
  lemma {:induction false} ReadContents(b: Buffer, v: Json, rest: seq<Event>, n: nat)
    requires b.depth >= 1 && !b.done
    ensures v.Array? || v.Object? ==>
              var inside := b.(stack := b.stack + [if v.Array? then Array([]) else Object([])], depth := b.depth + 1);
              var after := b.(stack := b.stack + [v]);
              ReadN(inside, Events(v)[1..] + rest, n) ==
                if Full(after, n) then var (doc, b') := Flush(after); (Some(doc), b', rest) else ReadN(after, rest, n)
    decreases v, 0
  {
    hide ReadN, CloseArray, CloseObject, Full, Flush;
    match v
    case Array(items) =>
      var inside := b.(stack := b.stack + [Array([])], depth := b.depth + 1);
      var close := [EndArray(|items|)] + rest;
      assert Events(v)[1..] + rest == EventsOfAll(items) + close;
      ReadAllNested(inside, items, close, n);
      ReadEvent(inside.(stack := inside.stack + items), EndArray(|items|), rest, n);
      ClosedArray(b.stack, items);
    case Object(members) =>
      var inside := b.(stack := b.stack + [Object([])], depth := b.depth + 1);
      var close := [EndObject(|members|)] + rest;
      assert Events(v)[1..] + rest == EventsOfMembers(members) + close;
      ReadMembersNested(inside, members, close, n);
      ReadEvent(inside.(stack := inside.stack + Flat(members)), EndObject(|members|), rest, n);
      ClosedObject(b.stack, members);
    case _ =>
  }

  lemma {:induction false} ClosedArray(stack: seq<Json>, items: seq<Json>)
    ensures CloseArray(stack + [Array([])] + items, |items|) == stack + [Array(items)]
  {
    var full := stack + [Array([])] + items;
    assert full[..|full| - |items| - 1] == stack && full[|full| - |items|..] == items;
  }

  lemma {:induction false} ClosedObject(stack: seq<Json>, members: seq<Member>)
    ensures CloseObject(stack + [Object([])] + Flat(members), |members|) == stack + [Object(members)]
  {
    var flat := Flat(members);
    var full := stack + [Object([])] + flat;
    assert full[..|full| - |flat| - 1] == stack && full[|full| - |flat|..] == flat;
    MembersOfFlat(members);
  }

  lemma {:induction false} NotFull(b: Buffer, n: nat)
    requires b.depth >= 2 && !b.done
    ensures !Full(b, n)
  {
  }

  lemma {:induction false} FirstOfAll(items: seq<Json>, rest: seq<Event>)
    ensures items == [] ==> EventsOfAll(items) + rest == rest
    ensures items != [] ==> EventsOfAll(items) + rest == Events(items[0]) + (EventsOfAll(items[1..]) + rest)
  {
  }

  lemma {:induction false} ReadAllNested(b: Buffer, items: seq<Json>, rest: seq<Event>, n: nat)
    requires b.depth >= 2 && !b.done
    ensures ReadN(b, EventsOfAll(items) + rest, n) == ReadN(b.(stack := b.stack + items), rest, n)
    decreases items, 2
  {
    hide ReadN, Events, EventsOfAll;
    FirstOfAll(items, rest);
    if items == [] {
      assert b.stack + items == b.stack;
    } else {
      ReadNested(b, items[0], EventsOfAll(items[1..]) + rest, n);
      var b' := b.(stack := b.stack + [items[0]]);
      ReadAllNested(b', items[1..], rest, n);
      assert b'.stack + items[1..] == b.stack + items;
    }
  }

  function Flat(members: seq<Member>): (r: seq<Json>)
    ensures |r| == 2 * |members|
  {
    if members == [] then [] else [String(members[0].name), members[0].value] + Flat(members[1..])
  }

  lemma {:induction false} MembersOfFlat(members: seq<Member>)
    ensures Members(Flat(members)) == members
  {
    if members != [] {
      MembersOfFlat(members[1..]);
      assert Flat(members)[2..] == Flat(members[1..]);
    }
  }

  lemma {:induction false} ReadMembersNested(b: Buffer, members: seq<Member>, rest: seq<Event>, n: nat)
    requires b.depth >= 2 && !b.done
    ensures ReadN(b, EventsOfMembers(members) + rest, n) == ReadN(b.(stack := b.stack + Flat(members)), rest, n)
    decreases members, 2
  {
    hide ReadN, CloseArray, CloseObject, Full, Flush;
    if members == [] {
      assert EventsOfMembers(members) + rest == rest && b.stack + Flat(members) == b.stack;
    } else {
      var m := members[0];
      var tail := EventsOfMembers(members[1..]) + rest;
      assert EventsOfMembers(members) + rest == [Key(m.name)] + (Events(m.value) + tail);
      ReadEvent(b, Key(m.name), Events(m.value) + tail, n);
      var b' := b.(stack := b.stack + [String(m.name)]);
      ReadNested(b', m.value, tail, n);
      var b'' := b'.(stack := b'.stack + [m.value]);
      assert Full(b', n) == false by { NotFull(b', n); }
      ReadMembersNested(b'', members[1..], rest, n);
      assert b''.stack + Flat(members[1..]) == b.stack + Flat(members);
    }
  }

  // An element of the outer array counts once, and fills the batch or not.
  lemma {:induction false} ReadElement(b: Buffer, v: Json, rest: seq<Event>, n: nat)
    requires b.depth == 1 && !b.done
    ensures var after := b.(stack := b.stack + [v], size := b.size + 1);
            ReadN(b, Events(v) + rest, n) ==
              if after.size >= n then var (doc, b') := Flush(after); (Some(doc), b', rest) else ReadN(after, rest, n)
  {
    if v.Array? || v.Object? {
      var start := if v.Array? then StartArray else StartObject;
      assert Events(v) + rest == [start] + (Events(v)[1..] + rest);
      ReadEvent(b, start, Events(v)[1..] + rest, n);
      ReadContents(b.(size := b.size + 1), v, rest, n);
    } else {
      ReadEvent(b, Scalar(v), rest, n);
    }
  }

  // -------------------------------------------------------------------------
  // Batches

  // What the reader may still find: the whole array, what follows a batch, or nothing.
  ghost predicate Remaining(b: Buffer, events: seq<Event>, items: seq<Json>) {
    || (b == START && events == Events(Array(items)))
    || (b == BETWEEN && exists total: nat :: events == EventsOfAll(items) + [EndArray(total)])
    || (events == [] && items == [])
  }

  // The outer array with `got` elements in the buffer.
  function Collecting(got: seq<Json>): Buffer {
    Buffer([Array([])] + got, 1, |got|, false)
  }

  // What reading on gives when `got` is in the buffer and `items` are still to come.
  function BatchOf(got: seq<Json>, items: seq<Json>, total: nat, n: nat): (Option<Json>, Buffer, seq<Event>)
    requires |got| < n
  {
    var k := Min(n - |got|, |items|);
    (Some(Array(got + items[..k])),
     if |got| + k == n then BETWEEN else Buffer([Array([])], 0, 0, true),
     if |got| + k == n then EventsOfAll(items[k..]) + [EndArray(total)] else [])
  }

  lemma {:induction false} ReadBatch(got: seq<Json>, items: seq<Json>, total: nat, n: nat)
    requires |got| < n
    ensures ReadN(Collecting(got), EventsOfAll(items) + [EndArray(total)], n) == BatchOf(got, items, total, n)
    decreases |items|
  {
    hide ReadN, Events, EventsOfAll, Collecting;
    var end := [EndArray(total)];
    FirstOfAll(items, end);
    if items == [] {
      ReadEnd(got, total, n);
    } else {
      ReadNext(got, items[0], EventsOfAll(items[1..]) + end, n);
      var got' := got + [items[0]];
      if |got'| < n {
        ReadBatch(got', items[1..], total, n);
        var k := Min(n - |got|, |items|);
        assert got' + items[1..][..k - 1] == got + items[..k];
        assert items[1..][k - 1..] == items[k..];
      } else {
        assert got' == got + items[..1];
      }
    }
  }

  lemma {:induction false} ReadEnd(got: seq<Json>, total: nat, n: nat)
    requires |got| < n
    ensures ReadN(Collecting(got), [EndArray(total)], n) == BatchOf(got, [], total, n)
  {
    hide ReadN, CloseArray;
    assert [EndArray(total)] == [EndArray(total)] + [];
    ReadEvent(Collecting(got), EndArray(total), [], n);
    ClosedArray([], got);
    assert [] + [Array([])] + got == Collecting(got).stack;
    assert got + [][..0] == got;
  }

  lemma {:induction false} ReadNext(got: seq<Json>, v: Json, rest: seq<Event>, n: nat)
    requires |got| < n
    ensures ReadN(Collecting(got), Events(v) + rest, n) ==
              if |got| + 1 == n then (Some(Array(got + [v])), BETWEEN, rest) else ReadN(Collecting(got + [v]), rest, n)
  {
    hide ReadN, CloseArray, Events;
    ReadElement(Collecting(got), v, rest, n);
    ClosedArray([], got + [v]);
    assert [] + [Array([])] + (got + [v]) == Collecting(got).stack + [v] == Collecting(got + [v]).stack;
  }

  // A read returns the next n elements, or all that are left; nested values and the
  // parser's own counts make no difference.
  lemma {:induction false} ReadIsChunk(b: Buffer, events: seq<Event>, items: seq<Json>, n: nat)
    requires n >= 1 && Remaining(b, events, items)
    ensures var (doc, b', events') := ReadN(b, events, n);
            var k := Min(n, |items|);
            && Remaining(b', events', items[k..])
            && (if doc.Some? then doc.value == Array(items[..k]) else items == [])
  {
    hide ReadN, EventsOfAll, Handle, Full, Flush;
    assert [] + items[..Min(n, |items|)] == items[..Min(n, |items|)];
    if b == START && events == Events(Array(items)) {
      var rest := EventsOfAll(items) + [EndArray(|items|)];
      assert events == [StartArray] + rest;
      ReadEvent(b, StartArray, rest, n);
      FirstEvent(n);
      ReadBatch([], items, |items|, n);
    } else if events == [] && items == [] {
      ReadNothing(b, n);
    } else {
      var total: nat :| events == EventsOfAll(items) + [EndArray(total)];
      assert BETWEEN == Collecting([]);
      ReadBatch([], items, total, n);
    }
  }

  lemma {:induction false} FirstEvent(n: nat)
    requires n >= 1
    ensures Handle(START, StartArray) == Collecting([]) && !Full(Collecting([]), n)
  {
  }

  lemma {:induction false} ReadNothing(b: Buffer, n: nat)
    ensures ReadN(b, [], n) == (None, b, [])
  {
  }

  // The chunks that successive reads return.
  function Batches<T>(items: seq<T>, n: nat): seq<seq<T>>
    requires n >= 1
    decreases |items|
  {
    if items == [] then [] else [items[..Min(n, |items|)]] + Batches(items[Min(n, |items|)..], n)
  }

  function Concat<T>(parts: seq<seq<T>>): seq<T> {
    if parts == [] then [] else parts[0] + Concat(parts[1..])
  }

  // They make up the whole array; none is empty, and only the last may be shorter.
  lemma {:induction false} BatchesAreTheArray<T>(items: seq<T>, n: nat)
    requires n >= 1
    ensures Concat(Batches(items, n)) == items
    ensures forall i | 0 <= i < |Batches(items, n)| ::
              && 0 < |Batches(items, n)[i]| <= n
              && (i + 1 < |Batches(items, n)| ==> |Batches(items, n)[i]| == n)
    decreases |items|
  {
    if items != [] {
      var k := Min(n, |items|);
      BatchesAreTheArray(items[k..], n);
      assert items == items[..k] + items[k..];
    }
  }
}
