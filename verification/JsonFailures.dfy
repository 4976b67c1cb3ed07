/** What a failed document leaves behind in the builders: exactly when they are still
    aligned, and how many rows they have. */
module JsonFailures {
  import opened Wrappers
  import opened JsonTypes
  import opened JsonBuilders
  import opened JsonShredding

  // How many rows a failed document adds.
  function Extra(t: Type): nat {
    if t.ListType? || t.MapType? || t.FixedListType? then 1 else 0
  }

  // Whether a document that does not fit the type leaves the builders aligned.
  predicate FailsAligned(t: Type, v: Json)
    decreases t, 1
  {
    match t
    case ListType(elem) => v.Array? ==> ItemsFailAligned(elem, v.items)
    case FixedListType(size, elem) =>
      if !v.Array? then size == 0
      else ItemsFailAligned(elem, v.items) && GoodItems(elem, v.items) < |v.items| && GoodItems(elem, v.items) + Extra(elem) == size
    case MapType(key, item) => v.Array? ==> PairsFailAligned(t, v.items)
    case StructType(fields) =>
      (match v
       case Array(items) => |items| == |fields| ==> FieldsFailAligned(t, items)
       case Object(members) => FieldsFailAligned(t, Named(fields, members))
       case _ => true)
    case _ => true
  }

  // The number of elements before the first that does not fit.
  function GoodItems(t: Type, items: seq<Json>): (n: nat)
    ensures n <= |items| && (n == |items| <==> CoerceAll(t, items).Ok?)
  {
    if items == [] || Coerce(t, items[0]).Err? then 0 else 1 + GoodItems(t, items[1..])
  }

  predicate ItemsFailAligned(t: Type, items: seq<Json>)
    decreases t, 2, |items|
  {
    if items == [] then true
    else if Coerce(t, items[0]).Err? then FailsAligned(t, items[0])
    else ItemsFailAligned(t, items[1..])
  }

  // A bad key must not have started a row, and a bad item must have.
  predicate PairsFailAligned(t: Type, pairs: seq<Json>)
    requires t.MapType?
    decreases t, 0, |pairs|
  {
    if pairs == [] || CheckPair(pairs[0]).Some? then true
    else if Coerce(t.key, pairs[0].items[0]).Err? then Extra(t.key) == 0 && FailsAligned(t.key, pairs[0].items[0])
    else if Coerce(t.item, pairs[0].items[1]).Err? then Extra(t.item) == 1 && FailsAligned(t.item, pairs[0].items[1])
    else PairsFailAligned(t, pairs[1..])
  }

  // Only the first field may fail, and without starting a row.
  predicate FieldsFailAligned(t: Type, items: seq<Json>)
    requires t.StructType? && |items| == |t.fields|
    decreases t, 0
  {
    if items == [] then true
    else Coerce(t.fields[0].ftype, items[0]).Err? && Extra(t.fields[0].ftype) == 0 && FailsAligned(t.fields[0].ftype, items[0])
  }

  // -------------------------------------------------------------------------

  // A list, map or fixed-size list that fails has its row already.
  lemma {:induction false} FailedRow(t: Type, b: Builder, v: Json)
    requires Aligned(t, b) && Coerce(t, v).Err?
    ensures Len(AppendValue(t, b, v).0) == Len(b) + Extra(t)
  {
    hide Aligned;
    AppendValueAgrees(t, b, v);
    match t
    case MapType(_, _) => if v.Array? { PairsKeepLength(t, StartRow(t, b, true), v.items); }
    case StructType(fields) =>
      if v.Object? { FieldsKeepLength(t, b, 0, Named(fields, v.members), true); }
      if v.Array? && |v.items| == |fields| { FieldsKeepLength(t, b, 0, v.items, false); }
    case _ =>
  }

  lemma {:induction false} PairsKeepLength(t: Type, b: Builder, pairs: seq<Json>)
    requires t.MapType? && Shape(t, b)
    ensures Len(AppendPairs(t, b, pairs).0) == Len(b)
    decreases |pairs|
  {
    if pairs != [] && CheckPair(pairs[0]).None? {
      var keys := AppendValue(t.key, b.children[0], pairs[0].items[0]).0;
      var vals := AppendValue(t.item, b.children[1], pairs[0].items[1]).0;
      PairsKeepLength(t, b.(children := [keys, vals]), pairs[1..]);
    }
  }

  lemma {:induction false} FieldsKeepLength(t: Type, b: Builder, i: nat, items: seq<Json>, named: bool)
    requires t.StructType? && Shape(t, b) && i <= |t.fields| == |items|
    ensures Len(AppendFields(t, b, i, items, named).0) == Len(b)
    decreases |items| - i
  {
    if i < |items| {
      var kid := AppendValue(t.fields[i].ftype, b.children[i], items[i]).0;
      FieldsKeepLength(t, b.(children := b.children[i := kid]), i + 1, items, named);
    }
  }

  // The builders after a failure are aligned exactly when FailsAligned says so,
  // whatever they held before.
  lemma {:induction false} AlignedAfterFailure(t: Type, b: Builder, v: Json)
    requires Aligned(t, b) && Coerce(t, v).Err?
    ensures Aligned(t, AppendValue(t, b, v).0) <==> FailsAligned(t, v)
    decreases t, 2
  {
    match t
    case ListType(_) => ListAfterFailure(t, b, v);
    case FixedListType(_, _) => FixedListAfterFailure(t, b, v);
    case MapType(_, _) => MapAfterFailure(t, b, v);
    case StructType(_) => StructAfterFailure(t, b, v);
    case _ =>
  }

  lemma {:induction false} ListAfterFailure(t: Type, b: Builder, v: Json)
    requires t.ListType? && Aligned(t, b) && Coerce(t, v).Err?
    ensures Aligned(t, AppendValue(t, b, v).0) <==> FailsAligned(t, v)
    decreases t, 1
  {
    if v.Array? { ItemsAfterFailure(t.elem, b.children[0], v.items); }
  }

  lemma {:induction false} FixedListAfterFailure(t: Type, b: Builder, v: Json)
    requires t.FixedListType? && Aligned(t, b) && Coerce(t, v).Err?
    ensures Aligned(t, AppendValue(t, b, v).0) <==> FailsAligned(t, v)
    decreases t, 1
  {
    assert t.size * (Len(b) + 1) == t.size * Len(b) + t.size;
    if v.Array? {
      if CoerceAll(t.elem, v.items).Err? {
        ItemsAfterFailure(t.elem, b.children[0], v.items);
      } else {
        AppendItemsAgree(t.elem, b.children[0], v.items);
      }
    }
  }

  lemma {:induction false} ItemsAfterFailure(t: Type, b: Builder, items: seq<Json>)
    requires Aligned(t, b) && CoerceAll(t, items).Err?
    ensures var r := AppendItems(t, b, items).0;
            && Len(r) == Len(b) + GoodItems(t, items) + Extra(t)
            && (Aligned(t, r) <==> ItemsFailAligned(t, items))
    decreases t, 3, |items|
  {
    hide Aligned, Row, AppendValue, Coerce, FailsAligned;
    AppendValueAgrees(t, b, items[0]);
    if Coerce(t, items[0]).Err? {
      AlignedAfterFailure(t, b, items[0]);
      FailedRow(t, b, items[0]);
    } else {
      ItemsAfterFailure(t, AppendValue(t, b, items[0]).0, items[1..]);
    }
  }

  lemma {:induction false} MapAfterFailure(t: Type, b: Builder, v: Json)
    requires t.MapType? && Aligned(t, b) && Coerce(t, v).Err?
    ensures Aligned(t, AppendValue(t, b, v).0) <==> FailsAligned(t, v)
    decreases t, 1
  {
    var s := StartRow(t, b, true);
    if v.Array? { PairsAfterFailure(t, s, v.items); }
  }

  // The keys and items of a map after a failure.
  ghost predicate InStep(t: Type, r: Builder)
    requires t.MapType? && Shape(t, r)
  {
    Aligned(t.key, r.children[0]) && Aligned(t.item, r.children[1]) && Len(r.children[0]) == Len(r.children[1])
  }

  lemma {:induction false} PairsAfterFailure(t: Type, b: Builder, pairs: seq<Json>)
    requires t.MapType? && Shape(t, b) && InStep(t, b) && CoercePairs(t, pairs).Err?
    ensures var r := AppendPairs(t, b, pairs).0;
            && r == b.(children := [r.children[0], r.children[1]])
            && Len(r.children[0]) >= Len(b.children[0])
            && (InStep(t, r) <==> PairsFailAligned(t, pairs))
    decreases t, 0, |pairs|
  {
    hide Aligned, Row, AppendValue, Coerce, FailsAligned;
    if CheckPair(pairs[0]).Some? {
      assert b.children == [b.children[0], b.children[1]];
    } else {
      var k, x := pairs[0].items[0], pairs[0].items[1];
      AppendValueAgrees(t.key, b.children[0], k);
      AppendValueAgrees(t.item, b.children[1], x);
      if Coerce(t.key, k).Err? {
        AlignedAfterFailure(t.key, b.children[0], k);
        FailedRow(t.key, b.children[0], k);
      } else if Coerce(t.item, x).Err? {
        AlignedAfterFailure(t.item, b.children[1], x);
        FailedRow(t.item, b.children[1], x);
      } else {
        var b' := b.(children := [AppendValue(t.key, b.children[0], k).0, AppendValue(t.item, b.children[1], x).0]);
        PairsAfterFailure(t, b', pairs[1..]);
      }
    }
  }

  lemma {:induction false} StructAfterFailure(t: Type, b: Builder, v: Json)
    requires t.StructType? && Aligned(t, b) && Coerce(t, v).Err?
    ensures Aligned(t, AppendValue(t, b, v).0) <==> FailsAligned(t, v)
    decreases t, 1
  {
    if v.Object? {
      FieldsAfterFailure(t, b, Named(t.fields, v.members), true);
    } else if v.Array? && |v.items| == |t.fields| {
      FieldsAfterFailure(t, b, v.items, false);
    } else {
      assert AppendStruct(t, b, v).0 == b;
    }
  }

  lemma {:induction false} FieldsAfterFailure(t: Type, b: Builder, items: seq<Json>, named: bool)
    requires t.StructType? && Aligned(t, b) && |items| == |t.fields| && CoerceFields(t, 0, items, named).Err?
    ensures Aligned(t, AppendFields(t, b, 0, items, named).0) <==> FieldsFailAligned(t, items)
    ensures AppendFields(t, b, 0, items, named).1.Some?
    decreases t, 0
  {
    AppendFieldsAgree(t, b, b, 0, items, named);
    FieldAt(t, b, 0);
    var f, v := t.fields[0].ftype, items[0];
    AppendValueAgrees(f, b.children[0], v);
    var (kid, e) := AppendValue(f, b.children[0], v);
    var b' := b.(children := b.children[0 := kid]);
    if e.Some? {
      AlignedAfterFailure(f, b.children[0], v);
      FailedRow(f, b.children[0], v);
      FirstFieldDecides(t, b, kid);
    } else {
      LaterFieldsKeepFirst(t, b', 1, items, named);
      FieldsKeepLength(t, b', 1, items, named);
      FirstLonger(t, b, AppendFields(t, b', 1, items, named).0);
    }
  }

  // Exchanging the first child only.
  lemma {:induction false} FirstFieldDecides(t: Type, b: Builder, kid: Builder)
    requires t.StructType? && Aligned(t, b) && |t.fields| > 0 && Shape(t.fields[0].ftype, kid)
    ensures Aligned(t, b.(children := b.children[0 := kid])) <==> Aligned(t.fields[0].ftype, kid) && Len(kid) == Len(b)
  {
  }

  lemma {:induction false} FirstLonger(t: Type, b: Builder, r: Builder)
    requires t.StructType? && Shape(t, r) && |t.fields| > 0 && Len(r) == Len(b) < Len(r.children[0])
    ensures !Aligned(t, r)
  {
  }

  lemma {:induction false} LaterFieldsKeepFirst(t: Type, b: Builder, i: nat, items: seq<Json>, named: bool)
    requires t.StructType? && Shape(t, b) && 0 < i <= |t.fields| == |items|
    ensures AppendFields(t, b, i, items, named).0.children[0] == b.children[0]
    decreases |items| - i
  {
    if i < |items| {
      var kid := AppendValue(t.fields[i].ftype, b.children[i], items[i]).0;
      LaterFieldsKeepFirst(t, b.(children := b.children[i := kid]), i + 1, items, named);
    }
  }

  // A struct that fails in its second field leaves the first one a row too long: the
  // builders of a failed document are not aligned any more.
  lemma {:induction false} FailureCanMisalign()
    ensures var t := StructType([Field("a", BoolType), Field("b", BoolType)]);
            var (b, e) := AppendValue(t, EmptyBuilder(t), Array([Bool(true), String("x")]));
            e == Some(WrongType("boolean", String("x"))) && !Aligned(t, b)
  {
    var t := StructType([Field("a", BoolType), Field("b", BoolType)]);
    var items := [Bool(true), String("x")];
    var b0 := EmptyBuilder(t);
    var b1 := b0.(children := b0.children[0 := AppendCell(EmptyBuilder(BoolType), true, VBool(true))]);
    assert AppendFields(t, b0, 0, items, false) == AppendFields(t, b1, 1, items, false);
    assert AppendFields(t, b1, 1, items, false) == (b1.(children := b1.children[1 := b1.children[1]]), Some(WrongType("boolean", items[1])));
  }
}
