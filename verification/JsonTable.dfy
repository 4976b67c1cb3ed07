/** What the batches of a table amount to: of one array, and of several columns. */
module JsonTable {
  import opened Numbers
  import opened Wrappers
  import opened JsonTypes
  import opened JsonStream

  // -------------------------------------------------------------------------
  // What the batches of a run amount to

  function Chunk<T>(items: seq<T>, n: nat): seq<T> {
    items[..Min(n, |items|)]
  }

  function Rest<T>(items: seq<T>, n: nat): seq<T> {
    items[Min(n, |items|)..]
  }

  // Reading an array in two parts gives what reading it at once gives, or the same error.
  lemma {:induction false} CoerceSplits(t: Type, items: seq<Json>, k: nat)
    requires k <= |items|
    ensures CoerceAll(t, items) ==
              match CoerceAll(t, items[..k])
              case Err(e) => Err(e)
              case Ok(xs) => Map(CoerceAll(t, items[k..]), ys => xs + ys)
  {
    hide Coerce, CoerceAll;
    if k == 0 {
      assert items[..0] == [] && items[0..] == items;
      CoerceNone(t);
      if CoerceAll(t, items).Ok? { assert [] + CoerceAll(t, items).value == CoerceAll(t, items).value; }
    } else {
      CoerceFirst(t, items);
      CoerceFirst(t, items[..k]);
      CoerceSplits(t, items[1..], k - 1);
      assert items[..k][1..] == items[1..][..k - 1] && items[1..][k - 1..] == items[k..];
      if Coerce(t, items[0]).Ok? && CoerceAll(t, items[1..]).Ok? {
        var x, xs, ys := Coerce(t, items[0]).value, CoerceAll(t, items[1..][..k - 1]).value, CoerceAll(t, items[k..]).value;
        assert [x] + (xs + ys) == ([x] + xs) + ys;
      }
    }
  }

  lemma {:induction false} CoerceNone(t: Type)
    ensures CoerceAll(t, []) == Ok([])
  {
  }

  lemma {:induction false} CoerceFirst(t: Type, items: seq<Json>)
    requires items != []
    ensures CoerceAll(t, items) ==
              match Coerce(t, items[0])
              case Err(e) => Err(e)
              case Ok(x) =>
                match CoerceAll(t, items[1..])
                case Err(e) => Err(e)
                case Ok(xs) => Ok([x] + xs)
  {
  }

  // The batches that successive reads give, up to the end or the first error.
  function Run(t: Type, items: seq<Json>, n: nat): (seq<seq<Value>>, Option<Error>)
    requires n >= 1
    decreases |items|
  {
    if items == [] then ([], None)
    else
      match CoerceAll(t, Chunk(items, n))
      case Err(e) => ([], Some(e))
      case Ok(xs) =>
        var (rest, e) := Run(t, Rest(items, n), n);
        ([xs] + rest, e)
  }

  // For every batch size the run fails exactly when the one-shot reading fails, and
  // with the same error; else its batches make up the one-shot result.
  lemma {:induction false} RunIsOneShot(t: Type, items: seq<Json>, n: nat)
    requires n >= 1
    ensures var (batches, e) := Run(t, items, n);
            match CoerceAll(t, items)
            case Err(err) => e == Some(err)
            case Ok(xs) => e.None? && batches == Batches(xs, n) && Concat(batches) == xs
    decreases |items|
  {
    hide Coerce;
    if items != [] {
      RunIsOneShot(t, Rest(items, n), n);
      CoerceSplits(t, items, Min(n, |items|));
      if CoerceAll(t, items).Ok? {
        BatchesAreTheArray(CoerceAll(t, items).value, n);
        var xs, ys := CoerceAll(t, Chunk(items, n)).value, CoerceAll(t, Rest(items, n)).value;
        assert Chunk(xs + ys, n) == xs && Rest(xs + ys, n) == ys;
      }
    }
  }

  function Nulls(n: nat): (r: seq<Value>)
    ensures |r| == n && forall i | 0 <= i < n :: r[i] == VNull
  {
    seq(n, _ => VNull)
  }

  // A column with nulls up to a length.
  function Padded(xs: seq<Value>, rows: nat): seq<Value> {
    xs + if |xs| < rows then Nulls(rows - |xs|) else []
  }

  function Longest<T>(columns: seq<seq<T>>): nat {
    if columns == [] then 0
    else if |columns[0]| >= Longest(columns[1..]) then |columns[0]| else Longest(columns[1..])
  }

  lemma {:induction false} LongestIs<T>(columns: seq<seq<T>>)
    ensures forall c | 0 <= c < |columns| :: |columns[c]| <= Longest(columns)
    ensures Longest(columns) > 0 ==> exists c :: 0 <= c < |columns| && |columns[c]| == Longest(columns)
  {
    if columns != [] {
      LongestIs(columns[1..]);
      if |columns[0]| >= Longest(columns[1..]) {
        assert |columns[0]| == Longest(columns);
      } else {
        var c :| 0 <= c < |columns[1..]| && |columns[1..][c]| == Longest(columns[1..]);
        assert columns[c + 1] == columns[1..][c];
      }
    }
  }

  lemma {:induction false} LongestUnique<T>(columns: seq<seq<T>>, m: nat)
    requires forall c | 0 <= c < |columns| :: |columns[c]| <= m
    requires m > 0 ==> exists c :: 0 <= c < |columns| && |columns[c]| == m
    ensures Longest(columns) == m
  {
    LongestIs(columns);
  }

  function Chunks<T>(columns: seq<seq<T>>, n: nat): (r: seq<seq<T>>)
    ensures |r| == |columns| && forall c | 0 <= c < |columns| :: r[c] == Chunk(columns[c], n)
  {
    seq(|columns|, c requires 0 <= c < |columns| => Chunk(columns[c], n))
  }

  function Rests<T>(columns: seq<seq<T>>, n: nat): (r: seq<seq<T>>)
    ensures |r| == |columns| && forall c | 0 <= c < |columns| :: r[c] == Rest(columns[c], n)
  {
    seq(|columns|, c requires 0 <= c < |columns| => Rest(columns[c], n))
  }

  // One batch of a table of columns.
  function PaddedColumns(columns: seq<seq<Value>>): (r: seq<seq<Value>>)
    ensures |r| == |columns| && forall c | 0 <= c < |columns| :: r[c] == Padded(columns[c], Longest(columns))
  {
    seq(|columns|, c requires 0 <= c < |columns| => Padded(columns[c], Longest(columns)))
  }

  function TableRun(columns: seq<seq<Value>>, n: nat): seq<seq<seq<Value>>>
    requires n >= 1
    decreases Longest(columns)
  {
    if Longest(columns) == 0 then []
    else
      RestsShrink(columns, n);
      [PaddedColumns(Chunks(columns, n))] + TableRun(Rests(columns, n), n)
  }

  lemma {:induction false} RestsShrink<T>(columns: seq<seq<T>>, n: nat)
    ensures Longest(Chunks(columns, n)) == Min(n, Longest(columns))
    ensures Longest(Rests(columns, n)) == Longest(columns) - Min(n, Longest(columns))
  {
    var m := Longest(columns);
    LongestIs(columns);
    if m > 0 {
      var c :| 0 <= c < |columns| && |columns[c]| == m;
      assert |Chunks(columns, n)[c]| == Min(n, m) && |Rests(columns, n)[c]| == m - Min(n, m);
    }
    LongestUnique(Chunks(columns, n), Min(n, m));
    LongestUnique(Rests(columns, n), m - Min(n, m));
  }

  // What the batches hold of column c.
  function Column(batches: seq<seq<seq<Value>>>, c: nat): seq<Value> {
    if batches == [] then [] else (if c < |batches[0]| then batches[0][c] else []) + Column(batches[1..], c)
  }

  function RowsOf(batch: seq<seq<Value>>): nat {
    if batch == [] then 0 else |batch[0]|
  }

  predicate RowAligned(batch: seq<seq<Value>>) {
    forall c | 0 <= c < |batch| :: |batch[c]| == RowsOf(batch)
  }

  // Batch i of a run has that many columns, all equally long, and n rows unless it is
  // the last one.
  predicate BatchOk(run: seq<seq<seq<Value>>>, i: nat, width: nat, n: nat)
    requires i < |run|
  {
    && |run[i]| == width && RowAligned(run[i])
    && 0 < RowsOf(run[i]) <= n && (i + 1 < |run| ==> RowsOf(run[i]) == n)
  }

  // Over the whole run every batch is aligned, and only the last has less than n rows.
  lemma {:induction false} TableRunIsAligned(columns: seq<seq<Value>>, n: nat)
    requires n >= 1
    ensures var run := TableRun(columns, n);
            forall i | 0 <= i < |run| :: BatchOk(run, i, |columns|, n)
    decreases Longest(columns)
  {
    hide PaddedColumns, Chunks, Rests, Longest;
    var run := TableRun(columns, n);
    if Longest(columns) > 0 {
      RestsShrink(columns, n);
      var others := Rests(columns, n);
      TableRunIsAligned(others, n);
      assert forall j | 0 <= j < |TableRun(others, n)| :: BatchOk(TableRun(others, n), j, |others|, n);
      var rest := TableRun(others, n);
      FirstBatch(columns, n);
      assert run[1..] == rest;
      forall i | 0 <= i < |run| ensures BatchOk(run, i, |columns|, n) {
        if i > 0 {
          assert run[i] == rest[i - 1];
          assert BatchOk(rest, i - 1, |others|, n);
        }
      }
    }
  }

  lemma {:induction false} FirstBatch(columns: seq<seq<Value>>, n: nat)
    requires n >= 1 && Longest(columns) > 0
    ensures var first := PaddedColumns(Chunks(columns, n));
            && RowAligned(first) && RowsOf(first) == Min(n, Longest(columns))
            && forall c | 0 <= c < |columns| :: first[c] == Padded(Chunk(columns[c], n), Min(n, Longest(columns)))
    ensures Longest(Rests(columns, n)) > 0 ==> Longest(columns) > n
  {
    RestsShrink(columns, n);
    LongestIs(columns);
  }

  // And each column adds up to its array, padded with nulls to the longest one.
  lemma {:induction false} TableRunIsPadded(columns: seq<seq<Value>>, n: nat, c: nat)
    requires n >= 1 && c < |columns|
    ensures Column(TableRun(columns, n), c) == Padded(columns[c], Longest(columns))
    decreases Longest(columns)
  {
    hide PaddedColumns, Chunks, Rests, Longest, Padded;
    var m := Longest(columns);
    LongestIs(columns);
    if m > 0 {
      RestsShrink(columns, n);
      var others := Rests(columns, n);
      TableRunIsPadded(others, n, c);
      FirstBatch(columns, n);
      assert TableRun(columns, n) == [PaddedColumns(Chunks(columns, n))] + TableRun(others, n);
      PaddedSplits(columns[c], n, m);
    } else {
      NothingToPad(columns[c]);
    }
  }

  lemma {:induction false} NothingToPad(xs: seq<Value>)
    requires |xs| <= 0
    ensures Padded(xs, 0) == []
  {
  }

  lemma {:induction false} PaddedSplits(xs: seq<Value>, n: nat, m: nat)
    requires |xs| <= m
    ensures Padded(xs, m) == Padded(Chunk(xs, n), Min(n, m)) + Padded(Rest(xs, n), m - Min(n, m))
  {
  }
}
