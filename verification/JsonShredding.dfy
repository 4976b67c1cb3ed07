/** Reading a document into builders loses nothing: every appended row reads back as
    the value that the document stands for, and no earlier row changes. */
module JsonShredding {
  import opened Wrappers
  import opened JsonTypes
  import opened JsonBuilders

  // b' is b with rows behind it.
  ghost predicate Extends(t: Type, b: Builder, b': Builder) {
    && Aligned(t, b) && Aligned(t, b') && Len(b) <= Len(b')
    && forall i: nat | i < Len(b) :: Row(t, b', i) == Row(t, b, i)
  }

  ghost predicate OneMore(t: Type, b: Builder, b': Builder) {
    Extends(t, b, b') && Len(b') == Len(b) + 1
  }

  // One more row, which reads as x.
  ghost predicate Grown(t: Type, b: Builder, b': Builder, x: Value) {
    OneMore(t, b, b') && Row(t, b', Len(b)) == x
  }

  lemma {:induction false} Transitive(t: Type, a: Builder, b: Builder, c: Builder)
    requires Extends(t, a, b) && Extends(t, b, c)
    ensures Extends(t, a, c)
  {
    hide Aligned, Row;
  }

  lemma {:induction false} SameRows(t: Type, b: Builder, b': Builder, lo: nat, hi: nat)
    requires Extends(t, b, b') && lo <= hi <= Len(b)
    ensures Rows(t, b', lo, hi) == Rows(t, b, lo, hi)
    decreases hi - lo
  {
    hide Aligned, Row;
    if lo < hi { SameRows(t, b, b', lo, hi - 1); }
  }

  lemma {:induction false} RowsJoin(t: Type, b: Builder, lo: nat, mid: nat, hi: nat)
    requires Aligned(t, b) && lo <= mid <= hi <= Len(b)
    ensures Rows(t, b, lo, hi) == Rows(t, b, lo, mid) + Rows(t, b, mid, hi)
    decreases hi - mid
  {
    hide Aligned, Row;
    if mid < hi { RowsJoin(t, b, lo, mid, hi - 1); }
  }

  // -------------------------------------------------------------------------
  // One more row of each kind of type, once the children have grown

  lemma {:induction false} LeafGrows(t: Type, b: Builder, valid: bool, x: Value)
    requires t.NullType? || t.BoolType? || t.IntType? || t.StringType?
    requires Aligned(t, b)
    ensures OneMore(t, b, AppendCell(b, valid, x))
    ensures Row(t, AppendCell(b, valid, x), Len(b)) == if valid then x else VNull
  {
  }

  lemma {:induction false} ListGrows(t: Type, b: Builder, valid: bool, kid: Builder)
    requires t.ListType? && Aligned(t, b) && Extends(t.elem, b.children[0], kid)
    ensures var b' := OneKid(StartRow(t, b, valid), kid);
            && OneMore(t, b, b')
            && Row(t, b', Len(b)) == if valid then VList(Rows(t.elem, kid, Len(b.children[0]), Len(kid))) else VNull
  {
    var b' := OneKid(StartRow(t, b, valid), kid);
    forall i: nat | i < Len(b) ensures Row(t, b', i) == Row(t, b, i) {
      SameRows(t.elem, b.children[0], kid, Offset(b, i), Offset(b, i + 1));
    }
  }

  lemma {:induction false} FixedListGrows(t: Type, b: Builder, valid: bool, kid: Builder)
    requires t.FixedListType? && Aligned(t, b) && Extends(t.elem, b.children[0], kid)
    requires Len(kid) == Len(b.children[0]) + t.size
    ensures var b' := OneKid(StartRow(t, b, valid), kid);
            && OneMore(t, b, b')
            && Row(t, b', Len(b)) == if valid then VList(Rows(t.elem, kid, Len(b.children[0]), Len(kid))) else VNull
  {
    var b' := OneKid(StartRow(t, b, valid), kid);
    assert t.size * Len(b') == t.size * Len(b) + t.size;
    forall i: nat | i < Len(b) ensures Row(t, b', i) == Row(t, b, i) {
      FixedWithin(t.size, i, Len(b));
      SameRows(t.elem, b.children[0], kid, t.size * i, t.size * i + t.size);
    }
  }

  lemma {:induction false} MapGrows(t: Type, b: Builder, valid: bool, keys: Builder, vals: Builder)
    requires t.MapType? && Aligned(t, b) && Extends(t.key, b.children[0], keys) && Extends(t.item, b.children[1], vals)
    requires Len(keys) == Len(vals)
    ensures var b' := StartRow(t, b, valid).(children := [keys, vals]);
            && OneMore(t, b, b')
            && Row(t, b', Len(b)) ==
                 if valid then VMap(Rows(t.key, keys, Len(b.children[0]), Len(keys)), Rows(t.item, vals, Len(b.children[1]), Len(vals)))
                 else VNull
  {
    var b' := StartRow(t, b, valid).(children := [keys, vals]);
    forall i: nat | i < Len(b) ensures Row(t, b', i) == Row(t, b, i) {
      SameRows(t.key, b.children[0], keys, Offset(b, i), Offset(b, i + 1));
      SameRows(t.item, b.children[1], vals, Offset(b, i), Offset(b, i + 1));
    }
  }

  lemma {:induction false} StructGrows(t: Type, b: Builder, valid: bool, kids: seq<Builder>)
    requires t.StructType? && Aligned(t, b) && |kids| == |t.fields|
    requires forall f | 0 <= f < |kids| :: OneMore(t.fields[f].ftype, b.children[f], kids[f])
    ensures var b' := b.(valid := b.valid + [valid], children := kids);
            && OneMore(t, b, b')
            && Row(t, b', Len(b)) == if valid then VStruct(Parts(t, b', Len(b), 0)) else VNull
  {
    var b' := b.(valid := b.valid + [valid], children := kids);
    forall i: nat | i < Len(b) ensures Row(t, b', i) == Row(t, b, i) {
      SameParts(t, b, b', i, 0);
    }
  }

  lemma {:induction false} SameParts(t: Type, b: Builder, b': Builder, i: nat, f: nat)
    requires t.StructType? && Aligned(t, b) && Aligned(t, b') && i < Len(b) <= Len(b') && f <= |t.fields|
    requires forall g | 0 <= g < |t.fields| :: Extends(t.fields[g].ftype, b.children[g], b'.children[g])
    ensures Parts(t, b', i, f) == Parts(t, b, i, f)
    decreases |t.fields| - f
  {
    if f < |t.fields| { SameParts(t, b, b', i, f + 1); }
  }

  lemma {:induction false} PartsAre(t: Type, b: Builder, i: nat, f: nat, xs: seq<Value>)
    requires t.StructType? && Aligned(t, b) && i < Len(b) && f <= |t.fields| == |xs|
    requires forall g | 0 <= g < |t.fields| :: Row(t.fields[g].ftype, b.children[g], i) == xs[g]
    ensures Parts(t, b, i, f) == xs[f..]
    decreases |t.fields| - f
  {
    if f < |t.fields| {
      PartsAre(t, b, i, f + 1, xs);
      assert xs[f..] == [xs[f]] + xs[f + 1..];
    }
  }

  // -------------------------------------------------------------------------
  // Nulls and empty values

  lemma {:induction false} NullGrows(t: Type, b: Builder)
    requires Aligned(t, b)
    ensures OneMore(t, b, AppendNull(t, b)) && Row(t, AppendNull(t, b), Len(b)) == VNull
    decreases t, 0, 0
  {
    match t
    case ListType(elem) => ListGrows(t, b, false, b.children[0]);
    case MapType(key, item) => MapGrows(t, b, false, b.children[0], b.children[1]);
    case FixedListType(size, elem) =>
      NullsGrow(elem, b.children[0], size);
      FixedListGrows(t, b, false, AppendNulls(elem, b.children[0], size));
    case StructType(fields) =>
      EmptyPartsGrow(t, b);
      StructGrows(t, b, false, EmptyParts(t, b));
    case _ => LeafGrows(t, b, false, VNull);
  }

  lemma {:induction false} NullsGrow(t: Type, b: Builder, n: nat)
    requires Aligned(t, b)
    ensures Extends(t, b, AppendNulls(t, b, n)) && Len(AppendNulls(t, b, n)) == Len(b) + n
    decreases t, 1, n
  {
    if n > 0 {
      NullsGrow(t, b, n - 1);
      NullGrows(t, AppendNulls(t, b, n - 1));
      Transitive(t, b, AppendNulls(t, b, n - 1), AppendNulls(t, b, n));
    }
  }

  lemma {:induction false} EmptyGrows(t: Type, b: Builder)
    requires Aligned(t, b)
    ensures OneMore(t, b, AppendEmpty(t, b))
    decreases t, 1, 0
  {
    match t
    case ListType(elem) => ListGrows(t, b, true, b.children[0]);
    case MapType(key, item) => MapGrows(t, b, true, b.children[0], b.children[1]);
    case FixedListType(size, elem) =>
      EmptiesGrow(elem, b.children[0], size);
      FixedListGrows(t, b, true, AppendEmpties(elem, b.children[0], size));
    case StructType(fields) =>
      EmptyPartsGrow(t, b);
      StructGrows(t, b, true, EmptyParts(t, b));
    case NullType => LeafGrows(t, b, false, VNull);
    case BoolType => LeafGrows(t, b, true, VBool(false));
    case IntType(_, _) => LeafGrows(t, b, true, VInt(0));
    case StringType => LeafGrows(t, b, true, VString(""));
  }

  lemma {:induction false} EmptiesGrow(t: Type, b: Builder, n: nat)
    requires Aligned(t, b)
    ensures Extends(t, b, AppendEmpties(t, b, n)) && Len(AppendEmpties(t, b, n)) == Len(b) + n
    decreases t, 2, n
  {
    if n > 0 {
      EmptiesGrow(t, b, n - 1);
      EmptyGrows(t, AppendEmpties(t, b, n - 1));
      Transitive(t, b, AppendEmpties(t, b, n - 1), AppendEmpties(t, b, n));
    }
  }

  lemma {:induction false} EmptyPartsGrow(t: Type, b: Builder)
    requires t.StructType? && Aligned(t, b)
    ensures forall f | 0 <= f < |t.fields| :: OneMore(t.fields[f].ftype, b.children[f], EmptyParts(t, b)[f])
    decreases t, 0
  {
    forall f | 0 <= f < |t.fields| ensures OneMore(t.fields[f].ftype, b.children[f], EmptyParts(t, b)[f]) {
      EmptyGrows(t.fields[f].ftype, b.children[f]);
    }
  }

  // -------------------------------------------------------------------------
  // Documents

  // AppendValue fails exactly when the document does not fit the type, and with the
  // same error; else it adds one row that reads back as the document's value.
  ghost predicate Agrees(t: Type, b: Builder, r: Appended, x: Result<Value, Error>) {
    match x
    case Err(e) => r.1 == Some(e)
    case Ok(v) => r.1.None? && Grown(t, b, r.0, v)
  }

  ghost predicate AgreeAll(t: Type, b: Builder, r: Appended, xs: Result<seq<Value>, Error>) {
    match xs
    case Err(e) => r.1 == Some(e)
    case Ok(vs) =>
      && r.1.None? && Extends(t, b, r.0) && Len(r.0) == Len(b) + |vs|
      && Rows(t, r.0, Len(b), Len(r.0)) == vs
  }

  lemma {:induction false} AppendValueAgrees(t: Type, b: Builder, v: Json)
    requires Aligned(t, b)
    ensures Agrees(t, b, AppendValue(t, b, v), Coerce(t, v))
    decreases t, 3
  {
    if v.Null? {
      NullGrows(t, b);
    } else {
      match t
      case ListType(elem) => ListAgrees(t, b, v);
      case FixedListType(size, elem) => FixedListAgrees(t, b, v);
      case MapType(key, item) => MapAgrees(t, b, v);
      case StructType(fields) => StructAgrees(t, b, v);
      case NullType =>
      case BoolType => LeafAgrees(t, b, Coerce(t, v));
      case IntType(_, _) => LeafAgrees(t, b, Coerce(t, v));
      case StringType => LeafAgrees(t, b, Coerce(t, v));
    }
  }

  lemma {:induction false} LeafAgrees(t: Type, b: Builder, x: Result<Value, Error>)
    requires (t.BoolType? || t.IntType? || t.StringType?) && Aligned(t, b)
    ensures Agrees(t, b, AppendLeaf(b, x), x)
  {
    if x.Ok? { LeafGrows(t, b, true, x.value); }
  }

  lemma {:induction false} ListAgrees(t: Type, b: Builder, v: Json)
    requires t.ListType? && Aligned(t, b) && !v.Null?
    ensures Agrees(t, b, AppendValue(t, b, v), Coerce(t, v))
    decreases t, 1
  {
    if v.Array? {
      AppendItemsAgree(t.elem, b.children[0], v.items);
      var (kid, e) := AppendItems(t.elem, b.children[0], v.items);
      if e.None? { ListGrows(t, b, true, kid); }
    }
  }

  lemma {:induction false} FixedListAgrees(t: Type, b: Builder, v: Json)
    requires t.FixedListType? && Aligned(t, b) && !v.Null?
    ensures Agrees(t, b, AppendValue(t, b, v), Coerce(t, v))
    decreases t, 1
  {
    if v.Array? {
      AppendItemsAgree(t.elem, b.children[0], v.items);
      var (kid, e) := AppendItems(t.elem, b.children[0], v.items);
      if e.None? && |v.items| == t.size { FixedListGrows(t, b, true, kid); }
    }
  }

  lemma {:induction false} MapAgrees(t: Type, b: Builder, v: Json)
    requires t.MapType? && Aligned(t, b) && !v.Null?
    ensures Agrees(t, b, AppendValue(t, b, v), Coerce(t, v))
    decreases t, 2, 0
  {
    if v.Array? {
      var s := StartRow(t, b, true);
      AppendPairsAgree(t, s, v.items);
      var (r, e) := AppendPairs(t, s, v.items);
      if e.None? { MapGrows(t, b, true, r.children[0], r.children[1]); }
    }
  }

  lemma {:induction false} StructAgrees(t: Type, b: Builder, v: Json)
    requires t.StructType? && Aligned(t, b) && !v.Null?
    ensures Agrees(t, b, AppendValue(t, b, v), Coerce(t, v))
    decreases t, 1
  {
    if v.Object? {
      FieldsEnd(t, b, Named(t.fields, v.members), true);
    } else if v.Array? && |v.items| == |t.fields| {
      FieldsEnd(t, b, v.items, false);
    }
  }

  lemma {:induction false} FieldsEnd(t: Type, b: Builder, items: seq<Json>, named: bool)
    requires t.StructType? && Aligned(t, b) && |items| == |t.fields|
    ensures Agrees(t, b, Finish(AppendFields(t, b, 0, items, named)), Map(CoerceFields(t, 0, items, named), xs => VStruct(xs)))
    decreases t, 0, |items| + 1
  {
    hide Aligned, Row, AppendFields, CoerceFields;
    ShapeOf(t, b);
    AppendFieldsAgree(t, b, b, 0, items, named);
    var (r, e) := AppendFields(t, b, 0, items, named);
    if e.None? {
      var xs := CoerceFields(t, 0, items, named).value;
      assert forall f | 0 <= f < |t.fields| :: Grown(t.fields[f].ftype, b.children[f], r.children[f], xs[f - 0]);
      FieldsDone(t, b, r.children, xs);
    }
  }

  lemma {:induction false} ShapeOf(t: Type, b: Builder)
    requires t.StructType? && Aligned(t, b)
    ensures |b.children| == |t.fields|
  {
  }

  lemma {:induction false} FieldsDone(t: Type, b: Builder, kids: seq<Builder>, xs: seq<Value>)
    requires t.StructType? && Aligned(t, b) && |kids| == |t.fields| == |xs|
    requires forall f | 0 <= f < |kids| :: Grown(t.fields[f].ftype, b.children[f], kids[f], xs[f])
    ensures var b' := b.(valid := b.valid + [true], children := kids);
            OneMore(t, b, b') && Row(t, b', Len(b)) == VStruct(xs)
  {
    StructGrows(t, b, true, kids);
    hide Row;
    PartsAre(t, b.(valid := b.valid + [true], children := kids), Len(b), 0, xs);
  }

  lemma {:induction false} FieldAt(t: Type, b: Builder, f: nat)
    requires t.StructType? && Aligned(t, b) && f < |t.fields|
    ensures |b.children| == |t.fields| && Aligned(t.fields[f].ftype, b.children[f]) && Len(b.children[f]) == Len(b)
  {
  }

  // One row and then the rest.
  lemma {:induction false} FirstAndRest(t: Type, b: Builder, b': Builder, r: Builder, x: Value, xs: seq<Value>)
    requires Grown(t, b, b', x) && AgreeAll(t, b', (r, None), Ok(xs))
    ensures AgreeAll(t, b, (r, None), Ok([x] + xs))
  {
    hide Aligned, Row;
    Transitive(t, b, b', r);
    RowsJoin(t, r, Len(b), Len(b'), Len(r));
    SameRows(t, b', r, Len(b), Len(b'));
    assert Rows(t, b', Len(b), Len(b')) == [x];
  }

  lemma {:induction false} AppendItemsAgree(t: Type, b: Builder, items: seq<Json>)
    requires Aligned(t, b)
    ensures AgreeAll(t, b, AppendItems(t, b, items), CoerceAll(t, items))
    decreases t, 4, |items|
  {
    hide Aligned, Row, AppendValue, Coerce;
    if items != [] {
      AppendValueAgrees(t, b, items[0]);
      var (b', e) := AppendValue(t, b, items[0]);
      if e.None? {
        AppendItemsAgree(t, b', items[1..]);
        var (r, e') := AppendItems(t, b', items[1..]);
        if e'.None? {
          FirstAndRest(t, b, b', r, Coerce(t, items[0]).value, CoerceAll(t, items[1..]).value);
        }
      }
    }
  }

  // The builder of a map under construction: only its two children change.
  ghost predicate PairsAgree(t: Type, b: Builder, r: Appended, ps: Result<(seq<Value>, seq<Value>), Error>)
    requires t.MapType? && Shape(t, b) && Shape(t, r.0)
  {
    match ps
    case Err(err) => r.1 == Some(err)
    case Ok((ks, xs)) =>
      && r.1.None? && r.0 == b.(children := [r.0.children[0], r.0.children[1]])
      && AgreeAll(t.key, b.children[0], (r.0.children[0], None), Ok(ks))
      && AgreeAll(t.item, b.children[1], (r.0.children[1], None), Ok(xs))
  }

  lemma {:induction false} AppendPairsAgree(t: Type, b: Builder, pairs: seq<Json>)
    requires t.MapType? && Shape(t, b) && Aligned(t.key, b.children[0]) && Aligned(t.item, b.children[1])
    ensures PairsAgree(t, b, AppendPairs(t, b, pairs), CoercePairs(t, pairs))
    decreases t, 1, |pairs|
  {
    hide Aligned, Row, AppendValue, Coerce;
    if pairs == [] {
      assert b.children == [b.children[0], b.children[1]];
    } else if CheckPair(pairs[0]).None? {
      PairAgrees(t, b, pairs[0]);
      var (keys, e) := AppendValue(t.key, b.children[0], pairs[0].items[0]);
      var (vals, e') := AppendValue(t.item, b.children[1], pairs[0].items[1]);
      if e.None? && e'.None? {
        var b' := b.(children := [keys, vals]);
        AppendPairsAgree(t, b', pairs[1..]);
        var (r, e'') := AppendPairs(t, b', pairs[1..]);
        if e''.None? {
          var (ks, xs) := CoercePairs(t, pairs[1..]).value;
          FirstAndRest(t.key, b.children[0], keys, r.children[0], Coerce(t.key, pairs[0].items[0]).value, ks);
          FirstAndRest(t.item, b.children[1], vals, r.children[1], Coerce(t.item, pairs[0].items[1]).value, xs);
        }
      }
    }
  }

  lemma {:induction false} PairAgrees(t: Type, b: Builder, pair: Json)
    requires t.MapType? && Shape(t, b) && Aligned(t.key, b.children[0]) && Aligned(t.item, b.children[1])
    requires CheckPair(pair).None?
    ensures var k, x := pair.items[0], pair.items[1];
            && Agrees(t.key, b.children[0], AppendValue(t.key, b.children[0], k), Coerce(t.key, k))
            && Agrees(t.item, b.children[1], AppendValue(t.item, b.children[1], x), Coerce(t.item, x))
    decreases t, 0, 0
  {
    AppendValueAgrees(t.key, b.children[0], pair.items[0]);
    AppendValueAgrees(t.item, b.children[1], pair.items[1]);
  }

  // Fields before i have grown, those from i on are still as in b0.
  ghost predicate Midway(t: Type, b0: Builder, b: Builder, i: nat)
    requires t.StructType? && Shape(t, b0)
  {
    && i <= |t.fields| == |b.children| && b == b0.(children := b.children)
    && (forall f | 0 <= f < i :: OneMore(t.fields[f].ftype, b0.children[f], b.children[f]))
    && (forall f | i <= f < |t.fields| :: b.children[f] == b0.children[f])
  }

  lemma {:induction false} AppendFieldsAgree(t: Type, b0: Builder, b: Builder, i: nat, items: seq<Json>, named: bool)
    requires t.StructType? && Aligned(t, b0) && Shape(t, b) && Midway(t, b0, b, i) && |items| == |t.fields|
    ensures var (r, e) := AppendFields(t, b, i, items, named);
            match CoerceFields(t, i, items, named)
            case Err(err) => e == Some(err)
            case Ok(xs) =>
              && e.None? && Midway(t, b0, r, |t.fields|)
              && (forall f | 0 <= f < i :: r.children[f] == b.children[f])
              && (forall f | i <= f < |t.fields| :: Grown(t.fields[f].ftype, b0.children[f], r.children[f], xs[f - i]))
    decreases t, 0, |items| - i
  {
    hide Aligned, Row, AppendValue, Coerce;
    if i < |items| {
      FieldAt(t, b0, i);
      AppendValueAgrees(t.fields[i].ftype, b.children[i], items[i]);
      var (kid, e) := AppendValue(t.fields[i].ftype, b.children[i], items[i]);
      if e.None? {
        AppendFieldsAgree(t, b0, b.(children := b.children[i := kid]), i + 1, items, named);
      }
    }
  }

  lemma {:induction false} EmptyIsAligned(t: Type)
    ensures Aligned(t, EmptyBuilder(t)) && Len(EmptyBuilder(t)) == 0
    decreases t
  {
    match t
    case ListType(elem) => EmptyIsAligned(elem);
    case FixedListType(_, elem) => EmptyIsAligned(elem);
    case MapType(key, item) => EmptyIsAligned(key); EmptyIsAligned(item);
    case StructType(fields) => forall f | 0 <= f < |fields| ensures Aligned(fields[f].ftype, EmptyBuilder(fields[f].ftype)) {
        EmptyIsAligned(fields[f].ftype);
      }
      assert forall f | 0 <= f < |fields| :: Len(EmptyBuilder(fields[f].ftype)) == 0;
    case _ =>
  }

  // A whole array: it is read exactly when each of its elements fits the type, and
  // then row i is the value of element i.
  lemma {:induction false} ArrayIsLossless(t: Type, items: seq<Json>)
    ensures var (b, e) := AppendValues(t, EmptyBuilder(t), Array(items));
            match CoerceAll(t, items)
            case Err(err) => e == Some(err)
            case Ok(xs) => e.None? && Aligned(t, b) && Len(b) == |items| && Rows(t, b, 0, |items|) == xs
  {
    EmptyIsAligned(t);
    AppendItemsAgree(t, EmptyBuilder(t), items);
  }
}
