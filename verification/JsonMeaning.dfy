/** Which documents stand for which values under a type, said without following the
    parser, and that the parser accepts exactly these. */
module JsonMeaning {
  import opened Wrappers
  import opened JsonTypes
  import opened JsonBuilders
  import opened JsonShredding

  predicate Fits(w: Width, signed: bool, n: int) {
    if signed then
      if w == 8 then -0x80 <= n < 0x80
      else if w == 16 then -0x8000 <= n < 0x8000
      else if w == 32 then -0x8000_0000 <= n < 0x8000_0000
      else -0x8000_0000_0000_0000 <= n < 0x8000_0000_0000_0000
    else
      0 <= n && (if w == 8 then n < 0x100
                 else if w == 16 then n < 0x1_0000
                 else if w == 32 then n < 0x1_0000_0000
                 else n < 0x1_0000_0000_0000_0000)
  }

  // The document stands for the value under the type.
  ghost predicate Stands(t: Type, v: Json, x: Value)
    decreases t, 1
  {
    if v == Null then x == VNull
    else match t
      case NullType => false
      case BoolType => (v.Bool? && x == VBool(v.b)) || (v.Int? && -0x8000_0000 <= v.n < 0x8000_0000 && x == VBool(v.n != 0))
      case IntType(w, signed) => v.Int? && Fits(w, signed, v.n) && x == VInt(v.n)
      case StringType => if v.String? then x == VString(v.s) else x == VText(v)
      case ListType(elem) => v.Array? && x.VList? && EachStands(elem, v.items, x.elems)
      case FixedListType(size, elem) => v.Array? && |v.items| == size && x.VList? && EachStands(elem, v.items, x.elems)
      case MapType(key, item) =>
        && v.Array? && x.VMap? && |x.keys| == |x.vals| == |v.items|
        && forall i | 0 <= i < |v.items| :: PairStands(t, v.items[i], x.keys[i], x.vals[i])
      case StructType(fields) =>
        && x.VStruct? && |x.parts| == |fields|
        && ((v.Array? && |v.items| == |fields| && forall i | 0 <= i < |fields| :: Stands(fields[i].ftype, v.items[i], x.parts[i]))
            || (v.Object? && forall i | 0 <= i < |fields| :: FieldStands(fields[i], v.members, x.parts[i])))
  }

  ghost predicate EachStands(t: Type, items: seq<Json>, xs: seq<Value>)
    decreases t, 2
  {
    |items| == |xs| && forall i | 0 <= i < |items| :: Stands(t, items[i], xs[i])
  }

  // A key, which is not null, and its value.
  ghost predicate PairStands(t: Type, pair: Json, k: Value, x: Value)
    requires t.MapType?
    decreases t, 0
  {
    pair.Array? && |pair.items| == 2 && pair.items[0] != Null && Stands(t.key, pair.items[0], k) && Stands(t.item, pair.items[1], x)
  }

  // The first member of the field's name, or null if there is none.
  ghost predicate FieldStands(field: Field, members: seq<Member>, x: Value)
    decreases field, 2
  {
    || (x == VNull && forall j | 0 <= j < |members| :: members[j].name != field.name)
    || exists j ::
         && 0 <= j < |members| && members[j].name == field.name
         && (forall k | 0 <= k < j :: members[k].name != field.name)
         && Stands(field.ftype, members[j].value, x)
  }

  // The parser's reading of a document is the value that it stands for, and it refuses
  // exactly the documents that stand for none.
  lemma {:induction false} CoerceIsMeaning(t: Type, v: Json, x: Value)
    ensures Coerce(t, v) == Ok(x) <==> Stands(t, v, x)
    decreases t, 3
  {
    if v != Null {
      match t
      case IntType(w, signed) => ParseNumberExact(w, signed, v);
      case ListType(elem) => ListIsMeaning(t, elem, v, x);
      case FixedListType(_, elem) => ListIsMeaning(t, elem, v, x);
      case MapType(_, _) => if v.Array? && x.VMap? { PairsAreMeaning(t, v.items, x.keys, x.vals); }
      case StructType(fields) => StructIsMeaning(t, v, x);
      case _ =>
    }
  }

  lemma {:induction false} ListIsMeaning(t: Type, elem: Type, v: Json, x: Value)
    requires (t.ListType? || t.FixedListType?) && t.elem == elem
    ensures v.Array? && x.VList? ==> (CoerceAll(elem, v.items) == Ok(x.elems) <==> EachStands(elem, v.items, x.elems))
    decreases t, 2
  {
    if v.Array? && x.VList? { AllAreMeaning(elem, v.items, x.elems); }
  }

  lemma {:induction false} AllAreMeaning(t: Type, items: seq<Json>, xs: seq<Value>)
    ensures CoerceAll(t, items) == Ok(xs) <==> EachStands(t, items, xs)
    decreases t, 4, |items|
  {
    hide Coerce, Stands;
    if items != [] && xs != [] {
      CoerceIsMeaning(t, items[0], xs[0]);
      AllAreMeaning(t, items[1..], xs[1..]);
      assert [xs[0]] + xs[1..] == xs;
      if EachStands(t, items, xs) {
        assert EachStands(t, items[1..], xs[1..]);
      } else if EachStands(t, items[1..], xs[1..]) && Stands(t, items[0], xs[0]) {
        forall i | 0 <= i < |items| ensures Stands(t, items[i], xs[i]) {
          if i > 0 { assert items[i] == items[1..][i - 1] && xs[i] == xs[1..][i - 1]; }
        }
      }
    }
  }

  lemma {:induction false} PairsAreMeaning(t: Type, pairs: seq<Json>, ks: seq<Value>, xs: seq<Value>)
    requires t.MapType?
    ensures CoercePairs(t, pairs) == Ok((ks, xs)) <==>
              |ks| == |xs| == |pairs| && forall i | 0 <= i < |pairs| :: PairStands(t, pairs[i], ks[i], xs[i])
    decreases t, 2, |pairs|
  {
    hide Coerce, Stands;
    if pairs != [] && ks != [] && xs != [] {
      PairsAreMeaning(t, pairs[1..], ks[1..], xs[1..]);
      PairIsMeaning(t, pairs[0], ks[0], xs[0]);
      assert [ks[0]] + ks[1..] == ks && [xs[0]] + xs[1..] == xs;
    }
  }

  lemma {:induction false} PairIsMeaning(t: Type, pair: Json, k: Value, x: Value)
    requires t.MapType?
    ensures PairStands(t, pair, k, x) <==>
              CheckPair(pair).None? && Coerce(t.key, pair.items[0]) == Ok(k) && Coerce(t.item, pair.items[1]) == Ok(x)
    decreases t, 1
  {
    hide Coerce, Stands;
    if pair.Array? && |pair.items| == 2 {
      CoerceIsMeaning(t.key, pair.items[0], k);
      CoerceIsMeaning(t.item, pair.items[1], x);
    }
  }

  lemma {:induction false} StructIsMeaning(t: Type, v: Json, x: Value)
    requires t.StructType? && v != Null
    ensures Coerce(t, v) == Ok(x) <==> Stands(t, v, x)
    decreases t, 2
  {
    if x.VStruct? && |x.parts| != |t.fields| {
    } else if x.VStruct? && v.Array? && |v.items| == |t.fields| {
      assert x.parts[0..] == x.parts;
      FieldsAreMeaning(t, 0, v.items, false, x.parts);
    } else if x.VStruct? && v.Object? {
      assert x.parts[0..] == x.parts;
      var items := Named(t.fields, v.members);
      FieldsAreMeaning(t, 0, items, true, x.parts);
      forall i | 0 <= i < |t.fields|
        ensures Stands(t.fields[i].ftype, items[i], x.parts[i]) <==> FieldStands(t.fields[i], v.members, x.parts[i])
      {
        NamedIsMeaning(t.fields[i], v.members, x.parts[i]);
      }
    }
  }

  lemma {:induction false} NamedIsMeaning(field: Field, members: seq<Member>, x: Value)
    ensures Stands(field.ftype, Find(members, field.name), x) <==> FieldStands(field, members, x)
  {
    var j := FindIsFirst(members, field.name);
    if FieldStands(field, members, x) && j < |members| {
      var k :| 0 <= k < |members| && members[k].name == field.name
               && (forall n | 0 <= n < k :: members[n].name != field.name) && Stands(field.ftype, members[k].value, x);
      assert k == j;
    }
  }

  lemma {:induction false} FieldsAreMeaning(t: Type, i: nat, items: seq<Json>, named: bool, xs: seq<Value>)
    requires t.StructType? && i <= |t.fields| == |items| == |xs|
    ensures CoerceFields(t, i, items, named) == Ok(xs[i..]) <==>
              forall j | i <= j < |items| :: Stands(t.fields[j].ftype, items[j], xs[j])
    decreases t, 1, |items| - i
  {
    hide Coerce, Stands;
    if i == |items| {
      assert xs[i..] == [];
    } else {
      CoerceIsMeaning(t.fields[i].ftype, items[i], xs[i]);
      FieldsAreMeaning(t, i + 1, items, named, xs);
      assert xs[i..] == [xs[i]] + xs[i + 1..] && xs[i..][1..] == xs[i + 1..];
      if Coerce(t.fields[i].ftype, items[i]).Ok? && CoerceFields(t, i + 1, items, named).Ok? {
        var x, rest := Coerce(t.fields[i].ftype, items[i]).value, CoerceFields(t, i + 1, items, named).value;
        assert ([x] + rest)[0] == x && ([x] + rest)[1..] == rest;
      }
    }
  }

  // So a row that was appended reads as what its document stands for; and nothing is
  // appended without an error exactly for documents that stand for nothing.
  lemma {:induction false} AppendedRowStands(t: Type, b: Builder, v: Json)
    requires Aligned(t, b)
    ensures var (b', e) := AppendValue(t, b, v);
            && (e.None? ==> Aligned(t, b') && Len(b') == Len(b) + 1 && Stands(t, v, Row(t, b', Len(b))))
            && (e.None? <==> exists x :: Stands(t, v, x))
            && (forall x | Stands(t, v, x) :: e.None? && x == Row(t, b', Len(b)))
  {
    hide Aligned, Row, AppendValue, Coerce, Stands;
    AppendValueAgrees(t, b, v);
    forall x ensures Coerce(t, v) == Ok(x) <==> Stands(t, v, x) { CoerceIsMeaning(t, v, x); }
    if Coerce(t, v).Ok? { assert Stands(t, v, Coerce(t, v).value); }
  }
}
