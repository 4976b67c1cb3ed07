/** The column builders as Arrow lays them out, and what the parsers append to them. */
module JsonBuilders {
  import opened Wrappers
  import opened JsonTypes

  /** A builder of any type. Leaves keep their values in `cells`; lists and maps note in
      `offsets` where each row's elements begin; nested builders are `children`. */
  datatype Builder = Builder(valid: seq<bool>, cells: seq<Value>, offsets: seq<nat>, children: seq<Builder>)

  function Len(b: Builder): nat {
    |b.valid|
  }

  // There is one builder per nested type.
  predicate Shape(t: Type, b: Builder)
    decreases t
  {
    match t
    case ListType(elem) => |b.children| == 1 && Shape(elem, b.children[0])
    case FixedListType(_, elem) => |b.children| == 1 && Shape(elem, b.children[0])
    case MapType(key, item) => |b.children| == 2 && Shape(key, b.children[0]) && Shape(item, b.children[1])
    case StructType(fields) =>
      |b.children| == |fields| && forall i | 0 <= i < |fields| :: Shape(fields[i].ftype, b.children[i])
    case _ => |b.children| == 0
  }

  // The alignment of the Arrow layouts: offsets never fall and stay within the child,
  // a fixed-size list has that many child elements per row, and the fields of a
  // struct are as long as the struct.
  predicate Aligned(t: Type, b: Builder): (ok: bool)
    ensures ok ==> Shape(t, b)
    decreases t
  {
    && Shape(t, b)
    && match t
       case ListType(elem) =>
         Aligned(elem, b.children[0]) && OffsetsOk(b.offsets, Len(b), Len(b.children[0]))
       case FixedListType(size, elem) =>
         Aligned(elem, b.children[0]) && Len(b.children[0]) == size * Len(b)
       case MapType(key, item) =>
         && Aligned(key, b.children[0]) && Aligned(item, b.children[1])
         && Len(b.children[0]) == Len(b.children[1]) && OffsetsOk(b.offsets, Len(b), Len(b.children[0]))
       case StructType(fields) =>
         forall i | 0 <= i < |fields| :: Aligned(fields[i].ftype, b.children[i]) && Len(b.children[i]) == Len(b)
       case _ => |b.cells| == Len(b)
  }

  predicate OffsetsOk(offsets: seq<nat>, rows: nat, len: nat) {
    && |offsets| == rows
    && (forall i, j | 0 <= i < j < rows :: offsets[i] <= offsets[j])
    && (forall i | 0 <= i < rows :: offsets[i] <= len)
  }

  // Where row i of a list begins; the row behind the last begins at the child's end.
  function Offset(b: Builder, i: nat): nat
    requires |b.children| > 0
  {
    if i < |b.offsets| then b.offsets[i] else Len(b.children[0])
  }

  // -------------------------------------------------------------------------
  // Reading a row back

  function Row(t: Type, b: Builder, i: nat): Value
    requires Aligned(t, b) && i < Len(b)
    decreases t, 1, 0
  {
    if !b.valid[i] then VNull
    else match t
      case ListType(elem) => VList(Rows(elem, b.children[0], Offset(b, i), Offset(b, i + 1)))
      case FixedListType(size, elem) =>
        FixedWithin(size, i, Len(b));
        VList(Rows(elem, b.children[0], size * i, size * i + size))
      case MapType(key, item) =>
        VMap(Rows(key, b.children[0], Offset(b, i), Offset(b, i + 1)), Rows(item, b.children[1], Offset(b, i), Offset(b, i + 1)))
      case StructType(fields) => VStruct(Parts(t, b, i, 0))
      case _ => b.cells[i]
  }

  function Rows(t: Type, b: Builder, lo: nat, hi: nat): (r: seq<Value>)
    requires Aligned(t, b) && lo <= hi <= Len(b)
    ensures |r| == hi - lo
    decreases t, 2, hi - lo
  {
    if lo == hi then [] else Rows(t, b, lo, hi - 1) + [Row(t, b, hi - 1)]
  }

  function Parts(t: Type, b: Builder, i: nat, f: nat): (r: seq<Value>)
    requires t.StructType? && Aligned(t, b) && i < Len(b) && f <= |t.fields|
    ensures |r| == |t.fields| - f
    decreases t, 0, |t.fields| - f
  {
    if f == |t.fields| then [] else [Row(t.fields[f].ftype, b.children[f], i)] + Parts(t, b, i, f + 1)
  }

  lemma {:induction false} FixedWithin(size: nat, i: nat, n: nat)
    requires i < n
    ensures size * i + size <= size * n
  {
    if i + 1 < n { FixedWithin(size, i, n - 1); }
    assert size * n == size * (n - 1) + size;
  }

  // -------------------------------------------------------------------------
  // Appending a null or an empty value

  function EmptyBuilder(t: Type): (b: Builder)
    ensures Shape(t, b)
    decreases t
  {
    var children := match t
      case ListType(elem) => [EmptyBuilder(elem)]
      case FixedListType(_, elem) => [EmptyBuilder(elem)]
      case MapType(key, item) => [EmptyBuilder(key), EmptyBuilder(item)]
      case StructType(fields) => seq(|fields|, i requires 0 <= i < |fields| => EmptyBuilder(fields[i].ftype))
      case _ => [];
    Builder([], [], [], children)
  }

  // The row that a list, map or fixed-size list starts before its elements arrive.
  function StartRow(t: Type, b: Builder, valid: bool): Builder
    requires Shape(t, b)
  {
    if t.ListType? || t.MapType? then b.(valid := b.valid + [valid], offsets := b.offsets + [Len(b.children[0])])
    else b.(valid := b.valid + [valid])
  }

  function AppendCell(b: Builder, valid: bool, cell: Value): Builder {
    b.(valid := b.valid + [valid], cells := b.cells + [cell])
  }

  // Under a null struct every field gets an empty value, under a null fixed-size
  // list the child gets that many nulls; a null list has no elements.
  function AppendNull(t: Type, b: Builder): (r: Builder)
    requires Shape(t, b)
    ensures Shape(t, r)
    decreases t, 0, 0
  {
    match t
    case ListType(_) => StartRow(t, b, false)
    case MapType(_, _) => StartRow(t, b, false)
    case FixedListType(size, elem) => StartRow(t, b, false).(children := [AppendNulls(elem, b.children[0], size)])
    case StructType(fields) => StartRow(t, b, false).(children := EmptyParts(t, b))
    case _ => AppendCell(b, false, VNull)
  }

  function AppendNulls(t: Type, b: Builder, n: nat): (r: Builder)
    requires Shape(t, b)
    ensures Shape(t, r)
    decreases t, 1, n
  {
    if n == 0 then b else AppendNull(t, AppendNulls(t, b, n - 1))
  }

  function AppendEmpty(t: Type, b: Builder): (r: Builder)
    requires Shape(t, b)
    ensures Shape(t, r)
    decreases t, 1, 0
  {
    match t
    case ListType(_) => StartRow(t, b, true)
    case MapType(_, _) => StartRow(t, b, true)
    case FixedListType(size, elem) => StartRow(t, b, true).(children := [AppendEmpties(elem, b.children[0], size)])
    case StructType(fields) => StartRow(t, b, true).(children := EmptyParts(t, b))
    case NullType => AppendCell(b, false, VNull)
    case BoolType => AppendCell(b, true, VBool(false))
    case IntType(_, _) => AppendCell(b, true, VInt(0))
    case StringType => AppendCell(b, true, VString(""))
  }

  function AppendEmpties(t: Type, b: Builder, n: nat): (r: Builder)
    requires Shape(t, b)
    ensures Shape(t, r)
    decreases t, 2, n
  {
    if n == 0 then b else AppendEmpty(t, AppendEmpties(t, b, n - 1))
  }

  function EmptyParts(t: Type, b: Builder): (r: seq<Builder>)
    requires t.StructType? && Shape(t, b)
    ensures |r| == |t.fields| && forall i | 0 <= i < |r| :: Shape(t.fields[i].ftype, r[i])
    decreases t, 0
  {
    seq(|t.fields|, i requires 0 <= i < |t.fields| => AppendEmpty(t.fields[i].ftype, b.children[i]))
  }

  // -------------------------------------------------------------------------
  // Appending a document

  type Appended = (Builder, Option<Error>)

  function OneKid(b: Builder, kid: Builder): Builder {
    b.(children := [kid])
  }

  function AppendLeaf(b: Builder, r: Result<Value, Error>): Appended {
    match r
    case Ok(x) => (AppendCell(b, true, x), None)
    case Err(e) => (b, Some(e))
  }

  function AppendValue(t: Type, b: Builder, v: Json): (r: Appended)
    requires Shape(t, b)
    ensures Shape(t, r.0)
    decreases t, 2
  {
    if v.Null? then (AppendNull(t, b), None)
    else match t
      case ListType(elem) =>
        var (kid, e) := AppendValues(elem, b.children[0], v);
        (StartRow(t, b, true).(children := [kid]), e)
      case FixedListType(size, elem) =>
        var (kid, e) := AppendValues(elem, b.children[0], v);
        (StartRow(t, b, true).(children := [kid]),
         if e.None? && v.Array? && |v.items| != size then Some(BadListSize(|v.items|)) else e)
      case MapType(_, _) =>
        if !v.Array? then (StartRow(t, b, true), Some(WrongType("array", v)))
        else AppendPairs(t, StartRow(t, b, true), v.items)
      case StructType(fields) => AppendStruct(t, b, v)
      case NullType => (b, Some(WrongType("null", v)))
      case BoolType => AppendLeaf(b, Map(ParseBoolean(v), x => VBool(x)))
      case IntType(w, signed) => AppendLeaf(b, Map(ParseNumber(w, signed, v), x => VInt(x)))
      case StringType => AppendLeaf(b, Ok(if v.String? then VString(v.s) else VText(v)))
  }

  function AppendValues(t: Type, b: Builder, v: Json): (r: Appended)
    requires Shape(t, b)
    ensures Shape(t, r.0)
    decreases t, 4
  {
    if !v.Array? then (b, Some(WrongType("array", v))) else AppendItems(t, b, v.items)
  }

  function AppendItems(t: Type, b: Builder, items: seq<Json>): (r: Appended)
    requires Shape(t, b)
    ensures Shape(t, r.0)
    decreases t, 3, |items|
  {
    if items == [] then (b, None)
    else
      var (b', e) := AppendValue(t, b, items[0]);
      if e.Some? then (b', e) else AppendItems(t, b', items[1..])
  }

  function AppendPairs(t: Type, b: Builder, pairs: seq<Json>): (r: Appended)
    requires t.MapType? && Shape(t, b)
    ensures Shape(t, r.0)
    decreases t, 1, |pairs|
  {
    if pairs == [] then (b, None)
    else
      var bad := CheckPair(pairs[0]);
      if bad.Some? then (b, bad)
      else
        var (keys, e) := AppendValue(t.key, b.children[0], pairs[0].items[0]);
        if e.Some? then (b.(children := [keys, b.children[1]]), e)
        else
          var (vals, e') := AppendValue(t.item, b.children[1], pairs[0].items[1]);
          var b' := b.(children := [keys, vals]);
          if e'.Some? then (b', e') else AppendPairs(t, b', pairs[1..])
  }

  function AppendStruct(t: Type, b: Builder, v: Json): (r: Appended)
    requires t.StructType? && Shape(t, b) && !v.Null?
    ensures Shape(t, r.0)
    decreases t, 1
  {
    match v
    case Array(items) =>
      if |items| != |t.fields| then (b, Some(BadStructSize(|items|)))
      else Finish(AppendFields(t, b, 0, items, false))
    case Object(members) => Finish(AppendFields(t, b, 0, Named(t.fields, members), true))
    case _ => (b, Some(WrongType("array or object", v)))
  }

  // The struct's own row follows those of its fields.
  function Finish(r: Appended): Appended {
    if r.1.Some? then r else (r.0.(valid := r.0.valid + [true]), None)
  }

  function AppendFields(t: Type, b: Builder, i: nat, items: seq<Json>, named: bool): (r: Appended)
    requires t.StructType? && Shape(t, b) && i <= |t.fields| == |items|
    ensures Shape(t, r.0)
    decreases t, 0, |items| - i
  {
    if i == |items| then (b, None)
    else
      var (kid, e) := AppendValue(t.fields[i].ftype, b.children[i], items[i]);
      var b' := b.(children := b.children[i := kid]);
      if e.Some? then (b', Some(if named then InField(t.fields[i].name, e.value) else e.value))
      else AppendFields(t, b', i + 1, items, named)
  }
}
