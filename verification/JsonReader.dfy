/** The readers of a table: an array of rows, or an object of columns, in batches. */
module JsonReader {
  import opened Numbers
  import opened Wrappers
  import opened JsonTypes
  import opened JsonStream
  import opened JsonParser
  import opened JsonShredding
  import opened JsonTable
  import B = JsonBuilders

  /** The document under construction and the nesting of the events so far. */
  class ArrayBuffer {
    var stack: seq<Json>
    var depth: int
    var size: nat
    var done: bool

    function State(): Buffer
      reads this
    {
      Buffer(stack, depth, size, done)
    }

    constructor ()
      ensures State() == START
    {
      stack, depth, size, done := [], 0, 0, false;
    }

    method Count()
      modifies this`size
      ensures size == old(size) + if depth == 1 then 1 else 0
    {
      if depth == 1 {
        size := size + 1;
      }
    }

    method HandleEvent(e: Event)
      modifies this
      ensures State() == Handle(old(State()), e)
    {
      match e
      case Scalar(v) =>
        Count();
        stack := stack + [v];
      case Key(name) => stack := stack + [String(name)];
      case StartArray =>
        Count();
        depth := depth + 1;
        stack := stack + [Array([])];
      case StartObject =>
        Count();
        depth := depth + 1;
        stack := stack + [Object([])];
      case EndObject(count) =>
        depth := depth - 1;
        stack := CloseObject(stack, count);
      case EndArray(count) =>
        depth := depth - 1;
        if depth == 0 {
          done := true;
          stack := CloseArray(stack, size);
        } else {
          stack := CloseArray(stack, count);
        }
    }

    method FlushDocument() returns (doc: Json)
      modifies this
      ensures (doc, State()) == Flush(old(State()))
    {
      if !done {
        stack := CloseArray(stack, size);
        size := 0;
      }
      doc := if |stack| == 1 then stack[0] else Null;
      stack := [Array([])];
      size := 0;
    }
  }

  /** Reads one array in batches of n elements. */
  class ArrayReader {
    const buffer: ArrayBuffer
    const parser: ArrayParser
    var events: seq<Event>      // what the iterative parser will still report

    constructor (input: seq<Event>, parser: ArrayParser)
      ensures events == input && this.parser == parser && fresh(buffer) && buffer.State() == START
    {
      this.events, this.parser := input, parser;
      buffer := new ArrayBuffer();
    }

    ghost function Footprint(): set<object> {
      {this, buffer} + parser.Repr
    }

    // `items` are still to be read, and the parser holds no rows.
    ghost predicate Awaits(items: seq<Json>)
      reads Footprint()
    {
      && parser.Tree() && Remaining(buffer.State(), events, items)
      && parser.Contents() == B.EmptyBuilder(parser.t)
    }

    method ReadNextN(n: nat) returns (e: Option<Error>)
      requires parser.Tree()
      modifies Footprint()
      ensures var (doc, b, rest) := ReadN(old(buffer.State()), old(events), n);
              && buffer.State() == b && events == rest
              && match doc
                 case None => e.None? && parser.Contents() == old(parser.Contents())
                 case Some(v) => (parser.Contents(), e) == B.AppendValues(parser.t, old(parser.Contents()), v)
    {
      hide Handle, Flush, B.AppendValues;
      ghost var goal := ReadN(buffer.State(), events, n);
      while events != []
        invariant ReadN(buffer.State(), events, n) == goal
        invariant parser.Contents() == old(parser.Contents())
        decreases |events|
      {
        var event := events[0];
        events := events[1..];
        buffer.HandleEvent(event);
        if buffer.done || (buffer.size >= n && buffer.depth == 1) {
          e := HandOver();
          return;
        }
      }
      return None;
    }

    // The buffered elements go to the parser.
    method HandOver() returns (e: Option<Error>)
      requires parser.Tree()
      modifies buffer, parser.Repr
      ensures var (doc, b) := Flush(old(buffer.State()));
              buffer.State() == b && (parser.Contents(), e) == B.AppendValues(parser.t, old(parser.Contents()), doc)
    {
      var doc := buffer.FlushDocument();
      e := parser.AppendValues(doc);
    }

    // With nothing in the parser, a read takes the next chunk of the array.
    method ReadChunk(n: nat, ghost items: seq<Json>) returns (e: Option<Error>)
      requires Awaits(items) && n >= 1
      modifies Footprint()
      ensures Remaining(buffer.State(), events, Rest(items, n))
      ensures (parser.Contents(), e) == B.AppendItems(parser.t, B.EmptyBuilder(parser.t), Chunk(items, n))
    {
      ReadIsChunk(buffer.State(), events, items, n);
      e := ReadNextN(n);
    }
  }

  // -------------------------------------------------------------------------
  // Columns of a batch

  // The column reads back as those values.
  ghost predicate Holds(t: Type, column: B.Builder, xs: seq<Value>) {
    B.Aligned(t, column) && B.Len(column) == |xs| && B.Rows(t, column, 0, |xs|) == xs
  }

  lemma {:induction false} ChunkHolds(t: Type, items: seq<Json>)
    ensures var (b, e) := B.AppendItems(t, B.EmptyBuilder(t), items);
            match CoerceAll(t, items)
            case Err(err) => e == Some(err)
            case Ok(xs) => e.None? && Holds(t, b, xs)
  {
    ArrayIsLossless(t, items);
  }

  lemma {:induction false} LengthHolds(t: Type, column: B.Builder, xs: seq<Value>)
    requires Holds(t, column, xs)
    ensures B.Len(column) == |xs|
  {
  }

  lemma {:induction false} RowAt(t: Type, b: B.Builder, lo: nat, hi: nat, i: nat)
    requires B.Aligned(t, b) && lo <= i < hi <= B.Len(b)
    ensures B.Rows(t, b, lo, hi)[i - lo] == B.Row(t, b, i)
    decreases hi - lo
  {
    hide B.Aligned, B.Row;
    if i < hi - 1 { RowAt(t, b, lo, hi - 1, i); }
  }

  // A struct column has a null exactly where its validity says so.
  lemma {:induction false} NullsShow(t: Type, b: B.Builder, xs: seq<Value>)
    requires t.StructType? && Holds(t, b, xs)
    ensures false in b.valid <==> VNull in xs
  {
    forall i: nat | i < |xs| ensures xs[i] == VNull <==> !b.valid[i] {
      RowAt(t, b, 0, |xs|, i);
    }
    assert forall i: nat | i < |xs| :: b.valid[i] in b.valid && xs[i] in xs;
  }

  // Appending nulls pads a column.
  lemma {:induction false} NullsPad(t: Type, b: B.Builder, xs: seq<Value>, n: nat)
    requires Holds(t, b, xs)
    ensures Holds(t, B.AppendNulls(t, b, n), xs + Nulls(n))
    decreases n
  {
    hide B.Aligned, B.Row;
    if n == 0 {
      assert xs + Nulls(0) == xs;
    } else {
      NullsPad(t, b, xs, n - 1);
      var was := B.AppendNulls(t, b, n - 1);
      NullGrows(t, was);
      SameRows(t, was, B.AppendNull(t, was), 0, |xs| + n - 1);
      assert xs + Nulls(n) == (xs + Nulls(n - 1)) + [VNull];
    }
  }

  // -------------------------------------------------------------------------
  // An array of rows

  // A run of batches ends with an error at the first batch that holds a null.
  function UpToNull(batches: seq<seq<Value>>, e: Option<Error>): (seq<seq<Value>>, Option<Error>) {
    if batches == [] then ([], e)
    else if VNull in batches[0] then ([], Some(NullRows))
    else
      var (rest, e') := UpToNull(batches[1..], e);
      ([batches[0]] + rest, e')
  }

  lemma {:induction false} UpToNullIs(batches: seq<seq<Value>>, e: Option<Error>)
    ensures if VNull in Concat(batches) then UpToNull(batches, e).1 == Some(NullRows) else UpToNull(batches, e) == (batches, e)
  {
    if batches != [] {
      UpToNullIs(batches[1..], e);
      assert Concat(batches) == batches[0] + Concat(batches[1..]);
      assert batches == [batches[0]] + batches[1..];
    }
  }

  // What successive reads of rows give, up to the end or the first error.
  function RowRun(t: Type, items: seq<Json>, n: nat): (seq<seq<Value>>, Option<Error>)
    requires n >= 1
  {
    var (batches, e) := Run(t, items, n);
    UpToNull(batches, e)
  }

  // For every batch size the run is free of errors exactly when all rows fit and none
  // is null, and then its batches are those of the rows read at once. A row that does
  // not fit is reported unless a batch before it holds a null.
  lemma {:induction false} RowRunIsOneShot(t: Type, items: seq<Json>, n: nat)
    requires n >= 1
    ensures match CoerceAll(t, items)
            case Err(err) => RowRun(t, items, n).1 == Some(if VNull in Concat(Run(t, items, n).0) then NullRows else err)
            case Ok(xs) =>
              if VNull in xs then RowRun(t, items, n).1 == Some(NullRows)
              else RowRun(t, items, n) == (Batches(xs, n), None) && Concat(Batches(xs, n)) == xs
  {
    hide Run, CoerceAll;
    RunIsOneShot(t, items, n);
    UpToNullIs(Run(t, items, n).0, Run(t, items, n).1);
  }

  // One read more.
  lemma {:induction false} RowRunStep(t: Type, items: seq<Json>, n: nat, parts: seq<seq<Value>>)
    requires n >= 1
    ensures var (rest, e) := RowRun(t, items, n);
            match CoerceAll(t, Chunk(items, n))
            case Err(err) => parts + rest == parts && e == Some(err)
            case Ok(xs) =>
              if xs == [] then parts + rest == parts && e == None
              else if VNull in xs then parts + rest == parts && e == Some(NullRows)
              else
                && e == RowRun(t, Rest(items, n), n).1
                && parts + rest == (parts + [xs]) + RowRun(t, Rest(items, n), n).0
  {
    hide Coerce;
    if items == [] { CoerceNone(t); }
    if items != [] && CoerceAll(t, Chunk(items, n)).Ok? {
      assert Run(t, items, n).0[1..] == Run(t, Rest(items, n), n).0;
    }
  }

  // The batches read back as those lists of rows.
  ghost predicate HoldEach(t: Type, batches: seq<B.Builder>, parts: seq<seq<Value>>) {
    |batches| == |parts| && forall i | 0 <= i < |batches| :: Holds(t, batches[i], parts[i])
  }

  class RowArrayTableReader {
    const reader: ArrayReader
    const batchSize: nat

    constructor (reader: ArrayReader, batchSize: nat)
      ensures this.reader == reader && this.batchSize == batchSize
    {
      this.reader, this.batchSize := reader, batchSize;
    }

    // The next batch, None behind the last one. A null among the rows is an error.
    method ReadNext(ghost items: seq<Json>) returns (r: Result<Option<B.Builder>, Error>)
      requires reader.Awaits(items) && batchSize >= 1 && reader.parser.t.StructType?
      modifies reader.Footprint()
      ensures match CoerceAll(reader.parser.t, Chunk(items, batchSize))
              case Err(e) => r == Err(e)
              case Ok(xs) =>
                && reader.Awaits(Rest(items, batchSize))
                && if xs == [] then r == Ok(None)
                   else if VNull in xs then r == Err(NullRows)
                   else r.Ok? && r.value.Some? && Holds(reader.parser.t, r.value.value, xs)
    {
      hide B.Aligned, B.Row, Coerce, Remaining;
      ghost var t := reader.parser.t;
      ChunkHolds(t, Chunk(items, batchSize));
      var e := reader.ReadChunk(batchSize, items);
      if e.Some? {
        return Err(e.value);
      }
      var column := reader.parser.Finish();
      NullsShow(t, column, CoerceAll(t, Chunk(items, batchSize)).value);
      if |column.valid| == 0 {
        return Ok(None);
      }
      if false in column.valid {
        return Err(NullRows);
      }
      return Ok(Some(column));
    }

    // Reads up to the end or the first error.
    method ReadAll(ghost items: seq<Json>) returns (batches: seq<B.Builder>, e: Option<Error>)
      requires reader.Awaits(items) && batchSize >= 1 && reader.parser.t.StructType?
      modifies reader.Footprint()
      ensures e == RowRun(reader.parser.t, items, batchSize).1
      ensures HoldEach(reader.parser.t, batches, RowRun(reader.parser.t, items, batchSize).0)
      ensures match CoerceAll(reader.parser.t, items)
              case Err(err) => e == Some(if VNull in Concat(Run(reader.parser.t, items, batchSize).0) then NullRows else err)
              case Ok(xs) =>
                && e == (if VNull in xs then Some(NullRows) else None)
                && (VNull !in xs ==> HoldEach(reader.parser.t, batches, Batches(xs, batchSize)))
    {
      hide Holds, Coerce, CoerceAll, RowRun, ArrayReader.Awaits, ArrayReader.Footprint;
      ghost var t, left, parts := reader.parser.t, items, [];
      ghost var goal := RowRun(t, items, batchSize);
      RowRunIsOneShot(t, items, batchSize);
      batches := [];
      assert parts + goal.0 == goal.0;
      while true
        invariant reader.Awaits(left) && HoldEach(t, batches, parts)
        invariant goal == (parts + RowRun(t, left, batchSize).0, RowRun(t, left, batchSize).1)
        decreases |left|
      {
        RowRunStep(t, left, batchSize, parts);
        var r := ReadNext(left);
        if r.Err? {
          return batches, Some(r.error);
        }
        if r.value.None? {
          return batches, None;
        }
        batches := batches + [r.value.value];
        parts := parts + [CoerceAll(t, Chunk(left, batchSize)).value];
        left := Rest(left, batchSize);
      }
    }
  }

  // -------------------------------------------------------------------------
  // An object of columns

  // The columns one after the other; the first error counts.
  function CoerceColumns(types: seq<Type>, chunks: seq<seq<Json>>): (r: Result<seq<seq<Value>>, Error>)
    requires |types| == |chunks|
    ensures r.Ok? ==> |r.value| == |types|
    ensures r.Ok? <==> forall c | 0 <= c < |types| :: CoerceAll(types[c], chunks[c]).Ok?
    ensures r.Ok? ==> forall c | 0 <= c < |types| :: CoerceAll(types[c], chunks[c]) == Ok(r.value[c])
  {
    if types == [] then Ok([])
    else
      match CoerceAll(types[0], chunks[0])
      case Err(e) => Err(e)
      case Ok(xs) =>
        match CoerceColumns(types[1..], chunks[1..])
        case Err(e) => Err(e)
        case Ok(rest) => Ok([xs] + rest)
  }

  lemma {:induction false} FirstError(types: seq<Type>, chunks: seq<seq<Json>>, c: nat)
    requires c < |types| == |chunks| && CoerceAll(types[c], chunks[c]).Err?
    requires forall d | 0 <= d < c :: CoerceAll(types[d], chunks[d]).Ok?
    ensures CoerceColumns(types, chunks) == Err(CoerceAll(types[c], chunks[c]).error)
    decreases c
  {
    hide CoerceAll;
    if c > 0 { FirstError(types[1..], chunks[1..], c - 1); }
  }

  // When all columns fit their types, the chunks of a batch are the chunks of the
  // values: successive batches are those of TableRun.
  lemma {:induction false} ChunksFollowRun(types: seq<Type>, items: seq<seq<Json>>, full: seq<seq<Value>>, n: nat)
    requires n >= 1 && |types| == |items| == |full|
    requires forall c | 0 <= c < |types| :: CoerceAll(types[c], items[c]) == Ok(full[c])
    ensures CoerceColumns(types, Chunks(items, n)) == Ok(Chunks(full, n))
    ensures forall c | 0 <= c < |types| :: CoerceAll(types[c], Rests(items, n)[c]) == Ok(Rests(full, n)[c])
    ensures TableRun(full, n) ==
              if Longest(Chunks(full, n)) == 0 then []
              else [PaddedColumns(Chunks(full, n))] + TableRun(Rests(full, n), n)
  {
    hide CoerceAll, CoerceColumns;
    RestsShrink(full, n);
    forall c | 0 <= c < |types|
      ensures CoerceAll(types[c], Chunks(items, n)[c]) == Ok(Chunks(full, n)[c])
      ensures CoerceAll(types[c], Rests(items, n)[c]) == Ok(Rests(full, n)[c])
    {
      var k := Min(n, |items[c]|);
      CoerceSplits(types[c], items[c], k);
      var xs, ys := CoerceAll(types[c], items[c][..k]).value, CoerceAll(types[c], items[c][k..]).value;
      assert (xs + ys)[..k] == xs && (xs + ys)[k..] == ys;
    }
    assert CoerceColumns(types, Chunks(items, n)).value == Chunks(full, n);
  }

  // What successive reads of columns give, up to the end or the first error.
  function ColumnRun(types: seq<Type>, items: seq<seq<Json>>, n: nat): (seq<seq<seq<Value>>>, Option<Error>)
    requires n >= 1 && |types| == |items|
    decreases Longest(items)
  {
    RestsShrink(items, n);
    match CoerceColumns(types, Chunks(items, n))
    case Err(e) => ([], Some(e))
    case Ok(xs) =>
      if Longest(items) == 0 then ([], None)
      else
        var (rest, e) := ColumnRun(types, Rests(items, n), n);
        ([PaddedColumns(xs)] + rest, e)
  }

  // For every batch size the run is free of errors exactly when all columns fit their
  // types, and then it is the run over their values.
  lemma {:induction false} ColumnRunIsOneShot(types: seq<Type>, items: seq<seq<Json>>, n: nat)
    requires n >= 1 && |types| == |items|
    ensures var (batches, e) := ColumnRun(types, items, n);
            match CoerceColumns(types, items)
            case Err(_) => e.Some?
            case Ok(full) => e.None? && batches == TableRun(full, n)
    decreases Longest(items)
  {
    hide CoerceColumns, CoerceAll, Longest;
    RestsShrink(items, n);
    if CoerceColumns(types, items).Ok? {
      var full := CoerceColumns(types, items).value;
      ChunksFollowRun(types, items, full, n);
      SameLongest(items, full);
      SameLongest(Chunks(items, n), Chunks(full, n));
      if Longest(items) > 0 {
        ColumnRunIsOneShot(types, Rests(items, n), n);
        assert CoerceColumns(types, Rests(items, n)).value == Rests(full, n);
      }
    } else {
      var c :| 0 <= c < |types| && CoerceAll(types[c], items[c]).Err?;
      CoerceSplits(types[c], items[c], Min(n, |items[c]|));
      LongestIs(items);
      if Longest(items) > 0 {
        ColumnRunIsOneShot(types, Rests(items, n), n);
      } else {
        CoerceNone(types[c]);
      }
      if CoerceColumns(types, Chunks(items, n)).Ok? {
        assert CoerceAll(types[c], Chunks(items, n)[c]).Ok?;
        assert CoerceAll(types[c], Rests(items, n)[c]).Err?;
      }
    }
  }

  // One read more.
  lemma {:induction false} ColumnRunStep(types: seq<Type>, items: seq<seq<Json>>, n: nat, run: seq<seq<seq<Value>>>)
    requires n >= 1 && |types| == |items|
    ensures var (rest, e) := ColumnRun(types, items, n);
            match CoerceColumns(types, Chunks(items, n))
            case Err(err) => run + rest == run && e == Some(err)
            case Ok(xs) =>
              if Longest(xs) == 0 then run + rest == run && e == None
              else
                && Longest(Rests(items, n)) < Longest(items)
                && e == ColumnRun(types, Rests(items, n), n).1
                && run + rest == (run + [PaddedColumns(xs)]) + ColumnRun(types, Rests(items, n), n).0
  {
    hide CoerceColumns, CoerceAll, Longest;
    RestsShrink(items, n);
    if CoerceColumns(types, Chunks(items, n)).Ok? {
      SameLongest(Chunks(items, n), CoerceColumns(types, Chunks(items, n)).value);
    }
  }

  lemma {:induction false} SameLongest<A, B>(a: seq<seq<A>>, b: seq<seq<B>>)
    requires |a| == |b| && forall c | 0 <= c < |a| :: |a[c]| == |b[c]|
    ensures Longest(a) == Longest(b)
  {
    if a != [] { SameLongest(a[1..], b[1..]); }
  }

  // A batch of columns reads back as those values.
  ghost predicate HoldBatch(types: seq<Type>, batch: seq<B.Builder>, xs: seq<seq<Value>>) {
    |batch| == |types| == |xs| && forall c | 0 <= c < |batch| :: Holds(types[c], batch[c], xs[c])
  }

  lemma {:induction false} BatchHolds(types: seq<Type>, batch: seq<B.Builder>, xs: seq<seq<Value>>)
    requires |batch| == |types| == |xs| && forall c | 0 <= c < |batch| :: Holds(types[c], batch[c], xs[c])
    ensures HoldBatch(types, batch, xs)
  {
  }

  ghost predicate HoldRun(types: seq<Type>, batches: seq<seq<B.Builder>>, run: seq<seq<seq<Value>>>) {
    |batches| == |run| && forall i | 0 <= i < |batches| :: HoldBatch(types, batches[i], run[i])
  }

  class ColumnObjectTableReader {
    const columns: seq<ArrayReader>
    const batchSize: nat

    // No two columns share a parser or a buffer.
    ghost predicate Apart() {
      && (forall c | 0 <= c < |columns| :: columns[c].parser.Tree())
      && (forall c, d | 0 <= c < d < |columns| :: columns[c].Footprint() !! columns[d].Footprint())
    }

    ghost function Footprint(): set<object> {
      set c, o | 0 <= c < |columns| && o in columns[c].Footprint() :: o
    }

    lemma {:induction false} ColumnApart(c: nat)
      requires Apart() && c < |columns|
      ensures columns[c].Footprint() <= Footprint()
      ensures forall d | 0 <= d < |columns| && d != c :: columns[d].Footprint() !! columns[c].Footprint()
    {
    }

    function Types(): (r: seq<Type>)
      ensures |r| == |columns| && forall c | 0 <= c < |columns| :: r[c] == columns[c].parser.t
    {
      seq(|columns|, c requires 0 <= c < |columns| => columns[c].parser.t)
    }

    constructor (columns: seq<ArrayReader>, batchSize: nat)
      ensures this.columns == columns && this.batchSize == batchSize
    {
      this.columns, this.batchSize := columns, batchSize;
    }

    // Column c has read those values and not handed them over yet.
    ghost predicate HasRead(c: nat, rest: seq<Json>, xs: seq<Value>)
      requires c < |columns|
      reads columns[c].Footprint()
    {
      var reader := columns[c];
      && reader.parser.Tree() && Remaining(reader.buffer.State(), reader.events, rest)
      && Holds(reader.parser.t, reader.parser.Contents(), xs)
    }

    method ReadColumn(c: nat, ghost items: seq<Json>) returns (e: Option<Error>)
      requires c < |columns| && columns[c].Awaits(items) && batchSize >= 1
      modifies columns[c].Footprint()
      ensures match CoerceAll(columns[c].parser.t, Chunk(items, batchSize))
              case Err(err) => e == Some(err)
              case Ok(xs) => e.None? && HasRead(c, Rest(items, batchSize), xs) && |columns[c].parser.valid| == |xs|
    {
      hide B.Aligned, B.Row, Coerce, Remaining;
      ChunkHolds(columns[c].parser.t, Chunk(items, batchSize));
      e := columns[c].ReadChunk(batchSize, items);
    }

    // Fills column c up with nulls and takes it.
    method TakeColumn(c: nat, rows: nat, ghost rest: seq<Json>, ghost xs: seq<Value>) returns (column: B.Builder)
      requires c < |columns| && HasRead(c, rest, xs)
      modifies columns[c].Footprint()
      ensures columns[c].Awaits(rest) && Holds(columns[c].parser.t, column, Padded(xs, rows))
    {
      hide Holds, B.AppendNulls, B.EmptyBuilder, B.Aligned, B.Row, Remaining, ArrayParser.Tree;
      var parser := columns[c].parser;
      LengthHolds(parser.t, parser.Contents(), xs);
      if |xs| < rows { NullsPad(parser.t, parser.Contents(), xs, rows - |xs|); } else { assert Padded(xs, rows) == xs; }
      Pad(parser, rows);
      column := parser.Finish();
    }

    method Pad(parser: ArrayParser, rows: nat)
      requires parser.Tree()
      modifies parser.Repr
      ensures var was := old(parser.Contents());
              parser.Contents() == if B.Len(was) < rows then B.AppendNulls(parser.t, was, rows - B.Len(was)) else was
    {
      hide B.AppendNull;
      var n := parser.GetLength();
      for i := n to if n < rows then rows else n
        invariant parser.Contents() == B.AppendNulls(parser.t, old(parser.Contents()), i - n)
      {
        parser.AppendNull();
      }
    }

    // The next batch: all columns have as many rows as the longest one that was read.
    method ReadNext(ghost items: seq<seq<Json>>) returns (r: Result<Option<seq<B.Builder>>, Error>)
      requires Apart() && batchSize >= 1 && |items| == |columns|
      requires forall c | 0 <= c < |columns| :: columns[c].Awaits(items[c])
      modifies Footprint()
      ensures match CoerceColumns(Types(), Chunks(items, batchSize))
              case Err(e) => r == Err(e)
              case Ok(xs) =>
                if Longest(xs) == 0 then r == Ok(None)
                else
                  && r.Ok? && r.value.Some? && |r.value.value| == |columns|
                  && (forall c | 0 <= c < |columns| :: Holds(columns[c].parser.t, r.value.value[c], PaddedColumns(xs)[c]))
                  && (forall c | 0 <= c < |columns| :: columns[c].Awaits(Rest(items[c], batchSize)))
    {
      hide Holds, CoerceColumns, HasRead;
      ghost var chunks, types := Chunks(items, batchSize), Types();
      var e, rows := ReadColumns(items);
      if e.Some? {
        return Err(e.value);
      }
      ghost var xs := CoerceColumns(types, chunks).value;
      if rows == 0 {
        return Ok(None);
      }
      var batch := TakeColumns(rows, Rests(items, batchSize), xs);
      return Ok(Some(batch));
    }

    // Reads up to the end or the first error.
    method ReadAll(ghost items: seq<seq<Json>>) returns (batches: seq<seq<B.Builder>>, e: Option<Error>)
      requires Apart() && batchSize >= 1 && |items| == |columns|
      requires forall c | 0 <= c < |columns| :: columns[c].Awaits(items[c])
      modifies Footprint()
      ensures e == ColumnRun(Types(), items, batchSize).1
      ensures HoldRun(Types(), batches, ColumnRun(Types(), items, batchSize).0)
      ensures match CoerceColumns(Types(), items)
              case Err(_) => e.Some?
              case Ok(full) => e.None? && HoldRun(Types(), batches, TableRun(full, batchSize))
    {
      hide HoldBatch, Coerce, CoerceColumns, ColumnRun, TableRun, Longest, ArrayReader.Awaits, Footprint, Apart;
      ghost var types, left, run := Types(), items, [];
      ghost var goal := ColumnRun(types, items, batchSize);
      ColumnRunIsOneShot(types, items, batchSize);
      batches := [];
      assert run + goal.0 == goal.0;
      while true
        invariant Apart() && |left| == |columns| && HoldRun(types, batches, run)
        invariant forall c | 0 <= c < |columns| :: columns[c].Awaits(left[c])
        invariant goal == (run + ColumnRun(types, left, batchSize).0, ColumnRun(types, left, batchSize).1)
        decreases Longest(left)
      {
        ColumnRunStep(types, left, batchSize, run);
        var r := ReadNext(left);
        if r.Err? {
          return batches, Some(r.error);
        }
        if r.value.None? {
          return batches, None;
        }
        ghost var xs := CoerceColumns(types, Chunks(left, batchSize)).value;
        assert HoldBatch(types, r.value.value, PaddedColumns(xs)) by { BatchHolds(types, r.value.value, PaddedColumns(xs)); }
        batches := batches + [r.value.value];
        run := run + [PaddedColumns(xs)];
        left := Rests(left, batchSize);
      }
    }

    method ReadColumns(ghost items: seq<seq<Json>>) returns (e: Option<Error>, rows: nat)
      requires Apart() && batchSize >= 1 && |items| == |columns|
      requires forall c | 0 <= c < |columns| :: columns[c].Awaits(items[c])
      modifies Footprint()
      ensures match CoerceColumns(Types(), Chunks(items, batchSize))
              case Err(err) => e == Some(err)
              case Ok(xs) =>
                && e.None? && rows == Longest(xs)
                && forall c | 0 <= c < |columns| :: HasRead(c, Rests(items, batchSize)[c], xs[c])
    {
      hide Holds, CoerceAll, CoerceColumns, HasRead, ArrayReader.Awaits, Longest, Chunks, Rests, Types, Footprint, Apart;
      ghost var chunks, types, rests := Chunks(items, batchSize), Types(), Rests(items, batchSize);
      ghost var xs := [];
      rows := 0;
      LongestGrows([], []);
      for c := 0 to |columns|
        invariant |xs| == c && rows == Longest(xs)
        invariant forall d | 0 <= d < c :: CoerceAll(types[d], chunks[d]) == Ok(xs[d]) && HasRead(d, rests[d], xs[d])
        invariant forall d | c <= d < |columns| :: columns[d].Awaits(items[d])
      {
        ColumnApart(c);
        e := ReadColumn(c, items[c]);
        if e.Some? {
          FirstError(types, chunks, c);
          return;
        }
        var n := columns[c].parser.GetLength();
        rows := if n > rows then n else rows;
        LongestGrows(xs, CoerceAll(types[c], chunks[c]).value);
        xs := xs + [CoerceAll(types[c], chunks[c]).value];
      }
      assert CoerceColumns(types, chunks).value == xs;
      e := None;
    }

    static lemma {:induction false} LongestGrows(xs: seq<seq<Value>>, x: seq<Value>)
      ensures Longest(xs + [x]) == if |x| > Longest(xs) then |x| else Longest(xs)
      ensures xs == [] ==> Longest(xs) == 0
    {
      LongestIs(xs);
      var all := xs + [x];
      var m := if |x| > Longest(xs) then |x| else Longest(xs);
      if m > 0 && m != |x| {
        var c :| 0 <= c < |xs| && |xs[c]| == m;
        assert all[c] == xs[c];
      }
      assert all[|xs|] == x;
      LongestUnique(all, m);
    }

    method TakeColumns(rows: nat, ghost rests: seq<seq<Json>>, ghost xs: seq<seq<Value>>) returns (batch: seq<B.Builder>)
      requires Apart() && |rests| == |columns| == |xs|
      requires forall c | 0 <= c < |columns| :: HasRead(c, rests[c], xs[c])
      modifies Footprint()
      ensures |batch| == |columns|
      ensures forall c | 0 <= c < |columns| :: Holds(columns[c].parser.t, batch[c], Padded(xs[c], rows)) && columns[c].Awaits(rests[c])
    {
      hide Holds, HasRead, Padded, ArrayReader.Awaits, Footprint, Apart;
      batch := [];
      for c := 0 to |columns|
        invariant |batch| == c
        invariant forall d | 0 <= d < c :: Holds(columns[d].parser.t, batch[d], Padded(xs[d], rows)) && columns[d].Awaits(rests[d])
        invariant forall d | c <= d < |columns| :: HasRead(d, rests[d], xs[d])
      {
        ColumnApart(c);
        var column := TakeColumn(c, rows, rests[c], xs[c]);
        batch := batch + [column];
      }
    }
  }
}
