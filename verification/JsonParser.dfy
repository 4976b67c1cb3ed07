/** The tree of array parsers: one object per nested type, each with a builder of its
    own that its methods append to in place. */
module JsonParser {
  import opened Wrappers
  import opened JsonTypes
  import B = JsonBuilders

  function KidTypes(t: Type): seq<Type> {
    match t
    case ListType(elem) => [elem]
    case FixedListType(_, elem) => [elem]
    case MapType(key, item) => [key, item]
    case StructType(fields) => FieldTypes(fields)
    case _ => []
  }

  function FieldTypes(fields: seq<Field>): (r: seq<Type>)
    ensures |r| == |fields| && forall i | 0 <= i < |fields| :: r[i] == fields[i].ftype
  {
    seq(|fields|, i requires 0 <= i < |fields| => fields[i].ftype)
  }

  class ArrayParser {
    const t: Type
    const kids: seq<ArrayParser>
    ghost const Repr: set<ArrayParser>
    var valid: seq<bool>
    var cells: seq<Value>
    var offsets: seq<nat>

    // The parsers form a tree that follows the type; it never changes.
    ghost predicate Tree()
      decreases t
    {
      && this in Repr && |kids| == |KidTypes(t)|
      && (forall i | 0 <= i < |kids| ::
            && kids[i].t == KidTypes(t)[i] && kids[i].t < t
            && kids[i].Repr <= Repr && this !in kids[i].Repr && kids[i].Tree())
      && (forall i, j | 0 <= i < j < |kids| :: kids[i].Repr !! kids[j].Repr)
    }

    // What the builders of the tree hold.
    function Contents(): (b: B.Builder)
      requires Tree()
      reads Repr
      ensures B.Shape(t, b)
      decreases t, 1
    {
      B.Builder(valid, cells, offsets, KidContents(0))
    }

    function KidContents(i: nat): (r: seq<B.Builder>)
      requires Tree() && i <= |kids|
      reads Repr
      ensures |r| == |kids| - i
      ensures forall j | 0 <= j < |r| :: r[j] == kids[i + j].Contents() && B.Shape(kids[i + j].t, r[j])
      decreases t, 0, |kids| - i
    {
      if i == |kids| then [] else [kids[i].Contents()] + KidContents(i + 1)
    }

    constructor (t: Type, kids: seq<ArrayParser>)
      requires |kids| == |KidTypes(t)|
      requires forall i | 0 <= i < |kids| :: kids[i].Tree() && kids[i].t == KidTypes(t)[i] && kids[i].t < t
      requires forall i, j | 0 <= i < j < |kids| :: kids[i].Repr !! kids[j].Repr
      ensures Tree() && this.t == t && this.kids == kids
      ensures valid == [] && cells == [] && offsets == []
      ensures Repr == {this} + set i, p | 0 <= i < |kids| && p in kids[i].Repr :: p
    {
      this.t, this.kids := t, kids;
      valid, cells, offsets := [], [], [];
      Repr := {this} + set i, p | 0 <= i < |kids| && p in kids[i].Repr :: p;
    }

    // ArrayParser::Resolve: the parsers of a type and of all types nested in it.
    static method Resolve(t: Type) returns (p: ArrayParser)
      ensures Fresh(p, t) && fresh(p.Repr)
      decreases t, 1
    {
      hide B.EmptyBuilder;
      var kids := ResolveKids(t, KidTypes(t));
      p := new ArrayParser(t, kids);
      p.NothingInIt();
    }

    // A parser for a type, with nothing in it.
    static ghost predicate Fresh(p: ArrayParser, t: Type)
      reads p.Repr
    {
      p.Tree() && p.t == t && p.Contents() == B.EmptyBuilder(t)
    }

    static method ResolveKids(t: Type, types: seq<Type>) returns (kids: seq<ArrayParser>)
      requires types == KidTypes(t)
      ensures |kids| == |types|
      ensures forall i | 0 <= i < |kids| :: Fresh(kids[i], types[i]) && types[i] < t && fresh(kids[i].Repr)
      ensures forall i, j | 0 <= i < j < |kids| :: kids[i].Repr !! kids[j].Repr
      decreases t, 0
    {
      hide Fresh;
      kids := [];
      while |kids| < |types|
        invariant |kids| <= |types|
        invariant forall i | 0 <= i < |kids| :: Fresh(kids[i], types[i]) && types[i] < t && fresh(kids[i].Repr)
        invariant forall i, j | 0 <= i < j < |kids| :: kids[i].Repr !! kids[j].Repr
      {
        Nested(t, |kids|);
        var kid := Resolve(types[|kids|]);
        assert forall i | 0 <= i < |kids| :: kids[i].Repr !! kid.Repr;
        kids := kids + [kid];
      }
    }

    lemma {:induction false} NothingInIt()
      requires Tree() && valid == [] && cells == [] && offsets == []
      requires forall i | 0 <= i < |kids| :: kids[i].Contents() == B.EmptyBuilder(KidTypes(t)[i])
      ensures Contents() == B.EmptyBuilder(t)
    {
      EmptyKids(t);
      hide B.EmptyBuilder;
      assert KidContents(0) == B.EmptyBuilder(t).children;
    }

    static lemma {:induction false} EmptyKids(t: Type)
      ensures var b := B.EmptyBuilder(t);
              && b.valid == [] && b.cells == [] && b.offsets == [] && |b.children| == |KidTypes(t)|
              && forall i | 0 <= i < |b.children| :: b.children[i] == B.EmptyBuilder(KidTypes(t)[i])
    {
    }

    static lemma {:induction false} Nested(t: Type, i: nat)
      requires i < |KidTypes(t)|
      ensures KidTypes(t)[i] < t
    {
    }

    // -----------------------------------------------------------------------
    // The builders

    method StartRow(ok: bool)
      requires Tree()
      modifies this`valid, this`offsets
      ensures Contents() == B.StartRow(t, old(Contents()), ok)
    {
      if t.ListType? || t.MapType? {
        offsets := offsets + [|kids[0].valid|];
      }
      valid := valid + [ok];
      KidsUnchanged();
    }

    method AppendCell(ok: bool, x: Value)
      requires Tree()
      modifies this`valid, this`cells
      ensures Contents() == B.AppendCell(old(Contents()), ok, x)
    {
      valid, cells := valid + [ok], cells + [x];
      KidsUnchanged();
    }

    // A change of this object alone leaves the builders of the children as they are.
    twostate lemma KidsUnchanged()
      requires Tree()
      requires forall p | p in Repr && p != this :: unchanged(p)
      ensures KidContents(0) == old(KidContents(0))
    {
      assert forall i | 0 <= i < |kids| :: kids[i].Contents() == old(kids[i].Contents());
    }

    // A change of one child is a change of one element.
    twostate lemma KidChanged(i: nat)
      requires Tree() && i < |kids|
      requires forall p | p in Repr && p !in kids[i].Repr :: unchanged(p)
      ensures Contents() == old(Contents()).(children := old(Contents()).children[i := kids[i].Contents()])
    {
      forall j | 0 <= j < |kids| && j != i ensures kids[j].Contents() == old(kids[j].Contents()) {
        assert kids[i].Repr !! kids[j].Repr;
      }
      assert KidContents(0) == old(KidContents(0))[i := kids[i].Contents()];
    }

    // -----------------------------------------------------------------------
    // Nulls and empty values

    method AppendNull()
      requires Tree()
      modifies Repr
      ensures Contents() == B.AppendNull(t, old(Contents()))
      decreases t, 1, 0
    {
      match t
      case ListType(_) => StartRow(false);
      case MapType(_, _) => StartRow(false);
      case FixedListType(size, _) =>
        StartRow(false);
        AppendNullsBelow(size);
      case StructType(fields) =>
        AppendEmptyParts();
        StartRow(false);
      case _ => AppendCell(false, VNull);
    }

    method AppendNullsBelow(n: nat)
      requires Tree() && t.FixedListType?
      modifies Repr
      ensures Contents() == B.OneKid(old(Contents()), B.AppendNulls(t.elem, old(Contents()).children[0], n))
      decreases t, 0
    {
      kids[0].AppendNulls(n);
      KidChanged(0);
    }

    method AppendNulls(n: nat)
      requires Tree()
      modifies Repr
      ensures Contents() == B.AppendNulls(t, old(Contents()), n)
      decreases t, 2, n
    {
      for i := 0 to n
        invariant Contents() == B.AppendNulls(t, old(Contents()), i)
      {
        AppendNull();
      }
    }

    method AppendEmpty()
      requires Tree()
      modifies Repr
      ensures Contents() == B.AppendEmpty(t, old(Contents()))
      decreases t, 1, 0
    {
      match t
      case ListType(_) => StartRow(true);
      case MapType(_, _) => StartRow(true);
      case FixedListType(size, _) =>
        StartRow(true);
        AppendEmptiesBelow(size);
      case StructType(fields) =>
        AppendEmptyParts();
        StartRow(true);
      case NullType => AppendCell(false, VNull);
      case BoolType => AppendCell(true, VBool(false));
      case IntType(_, _) => AppendCell(true, VInt(0));
      case StringType => AppendCell(true, VString(""));
    }

    method AppendEmptiesBelow(n: nat)
      requires Tree() && t.FixedListType?
      modifies Repr
      ensures Contents() == B.OneKid(old(Contents()), B.AppendEmpties(t.elem, old(Contents()).children[0], n))
      decreases t, 0
    {
      kids[0].AppendEmpties(n);
      KidChanged(0);
    }

    method AppendEmpties(n: nat)
      requires Tree()
      modifies Repr
      ensures Contents() == B.AppendEmpties(t, old(Contents()), n)
      decreases t, 2, n
    {
      for i := 0 to n
        invariant Contents() == B.AppendEmpties(t, old(Contents()), i)
      {
        AppendEmpty();
      }
    }

    // One empty value for every field of a struct.
    method AppendEmptyParts()
      requires Tree() && t.StructType?
      modifies Repr
      ensures Contents() == old(Contents()).(children := B.EmptyParts(t, old(Contents())))
      decreases t, 0, 1
    {
      hide B.EmptyParts, PartsSoFar;
      ghost var was := Contents();
      NextPart(t, was, 0);
      for i := 0 to |kids|
        invariant Contents() == PartsSoFar(t, was, i)
      {
        NextPart(t, was, i);
        AppendEmptyPart(i);
      }
      NextPart(t, was, |kids|);
    }

    // The first i fields have been given their empty value.
    static ghost function PartsSoFar(t: Type, b: B.Builder, i: nat): B.Builder
      requires t.StructType? && B.Shape(t, b) && i <= |t.fields|
    {
      b.(children := B.EmptyParts(t, b)[..i] + b.children[i..])
    }

    static lemma {:induction false} NextPart(t: Type, b: B.Builder, i: nat)
      requires t.StructType? && B.Shape(t, b) && i <= |t.fields|
      ensures PartsSoFar(t, b, 0) == b && PartsSoFar(t, b, |t.fields|) == b.(children := B.EmptyParts(t, b))
      ensures |PartsSoFar(t, b, i).children| == |t.fields|
      ensures i < |t.fields| ==>
                var now := PartsSoFar(t, b, i);
                && B.Shape(t.fields[i].ftype, now.children[i])
                && PartsSoFar(t, b, i + 1) == now.(children := now.children[i := B.AppendEmpty(t.fields[i].ftype, now.children[i])])
    {
      if i < |t.fields| {
        var parts := B.EmptyParts(t, b);
        assert parts[i] == B.AppendEmpty(t.fields[i].ftype, b.children[i]);
        assert parts[..i + 1] + b.children[i + 1..] == (parts[..i] + b.children[i..])[i := parts[i]];
      }
    }

    method AppendEmptyPart(i: nat)
      requires Tree() && t.StructType? && i < |kids|
      modifies Repr
      ensures Contents() ==
                old(Contents()).(children := old(Contents()).children[i := B.AppendEmpty(kids[i].t, old(Contents()).children[i])])
      decreases t, 0, 0
    {
      kids[i].AppendEmpty();
      KidChanged(i);
    }

    // -----------------------------------------------------------------------
    // Documents

    method AppendValue(v: Json) returns (e: Option<Error>)
      requires Tree()
      modifies Repr
      ensures (Contents(), e) == B.AppendValue(t, old(Contents()), v)
      decreases t, 3
    {
      if v.Null? {
        AppendNull();
        return None;
      }
      match t
      case ListType(_) =>
        StartRow(true);
        e := AppendBelow(v);
      case FixedListType(size, _) =>
        StartRow(true);
        e := AppendBelow(v);
        if e.None? && |v.items| != size {
          e := Some(BadListSize(|v.items|));
        }
      case MapType(_, _) => e := AppendMap(v);
      case StructType(_) => e := AppendStruct(v);
      case NullType => e := Some(WrongType("null", v));
      case BoolType => e := AppendLeaf(Map(ParseBoolean(v), x => VBool(x)));
      case IntType(w, signed) => e := AppendLeaf(Map(ParseNumber(w, signed, v), x => VInt(x)));
      case StringType => e := AppendLeaf(Ok(if v.String? then VString(v.s) else VText(v)));
    }

    method AppendLeaf(r: Result<Value, Error>) returns (e: Option<Error>)
      requires Tree()
      modifies this`valid, this`cells
      ensures (Contents(), e) == B.AppendLeaf(old(Contents()), r)
    {
      match r
      case Ok(x) =>
        AppendCell(true, x);
        e := None;
      case Err(err) => e := Some(err);
    }

    // The elements of an array go to the child.
    method AppendBelow(v: Json) returns (e: Option<Error>)
      requires Tree() && (t.ListType? || t.FixedListType?)
      modifies Repr
      ensures var was := old(Contents());
              var (kid, err) := B.AppendValues(t.elem, was.children[0], v);
              Contents() == B.OneKid(was, kid) && e == err
      ensures e.None? ==> v.Array?
      decreases t, 0
    {
      e := kids[0].AppendValues(v);
      KidChanged(0);
    }

    method AppendValues(v: Json) returns (e: Option<Error>)
      requires Tree()
      modifies Repr
      ensures (Contents(), e) == B.AppendValues(t, old(Contents()), v)
      decreases t, 4
    {
      if !v.Array? {
        return Some(WrongType("array", v));
      }
      assert v.items[0..] == v.items;
      for i := 0 to |v.items|
        invariant B.AppendItems(t, old(Contents()), v.items) == B.AppendItems(t, Contents(), v.items[i..])
      {
        assert v.items[i..][0] == v.items[i] && v.items[i..][1..] == v.items[i + 1..];
        e := AppendValue(v.items[i]);
        if e.Some? {
          return;
        }
      }
      return None;
    }

    method AppendKid(k: nat, v: Json) returns (e: Option<Error>)
      requires Tree() && k < |kids|
      modifies Repr
      ensures var was := old(Contents());
              var (kid, err) := B.AppendValue(kids[k].t, was.children[k], v);
              Contents() == was.(children := was.children[k := kid]) && e == err
      decreases t, 0, 0
    {
      e := kids[k].AppendValue(v);
      KidChanged(k);
    }

    method AppendMap(v: Json) returns (e: Option<Error>)
      requires Tree() && t.MapType? && !v.Null?
      modifies Repr
      ensures (Contents(), e) == B.AppendValue(t, old(Contents()), v)
      decreases t, 2
    {
      StartRow(true);
      if !v.Array? {
        return Some(WrongType("array", v));
      }
      e := AppendPairs(v.items);
    }

    method AppendPairs(items: seq<Json>) returns (e: Option<Error>)
      requires Tree() && t.MapType?
      modifies Repr
      ensures (Contents(), e) == B.AppendPairs(t, old(Contents()), items)
      decreases t, 1
    {
      assert items[0..] == items;
      for i := 0 to |items|
        invariant B.AppendPairs(t, old(Contents()), items) == B.AppendPairs(t, Contents(), items[i..])
      {
        assert items[i..] == [items[i]] + items[i + 1..];
        e := AppendPair(items[i], items[i + 1..]);
        if e.Some? {
          return;
        }
      }
      return None;
    }

    // One key and one item, or the reason why not.
    method AppendPair(pair: Json, ghost rest: seq<Json>) returns (e: Option<Error>)
      requires Tree() && t.MapType?
      modifies Repr
      ensures B.AppendPairs(t, old(Contents()), [pair] + rest) ==
                if e.Some? then (Contents(), e) else B.AppendPairs(t, Contents(), rest)
      decreases t, 0, 1
    {
      assert ([pair] + rest)[0] == pair && ([pair] + rest)[1..] == rest;
      e := CheckPair(pair);
      if e.None? {
        ghost var was := Contents().children;
        e := AppendKid(0, pair.items[0]);
        assert Contents().children == [Contents().children[0], was[1]];
        if e.None? {
          e := AppendKid(1, pair.items[1]);
          assert Contents().children == [Contents().children[0], Contents().children[1]];
        }
      }
    }

    // An array has one value for every field in order; an object names its fields and
    // may omit some.
    method AppendStruct(v: Json) returns (e: Option<Error>)
      requires Tree() && t.StructType? && !v.Null?
      modifies Repr
      ensures (Contents(), e) == B.AppendValue(t, old(Contents()), v)
      decreases t, 2
    {
      match v
      case Array(items) =>
        if |items| != |t.fields| {
          return Some(BadStructSize(|items|));
        }
        e := AppendFields(items, false);
      case Object(members) => e := AppendFields(Named(t.fields, members), true);
      case _ => return Some(WrongType("array or object", v));
    }

    method AppendFields(items: seq<Json>, named: bool) returns (e: Option<Error>)
      requires Tree() && t.StructType? && |items| == |t.fields|
      modifies Repr
      ensures (Contents(), e) == B.Finish(B.AppendFields(t, old(Contents()), 0, items, named))
      decreases t, 1
    {
      hide B.AppendValue, B.EmptyBuilder, B.Aligned, B.Row, Coerce;
      for i := 0 to |items|
        invariant B.AppendFields(t, old(Contents()), 0, items, named) == B.AppendFields(t, Contents(), i, items, named)
      {
        e := AppendKid(i, items[i]);
        if e.Some? {
          e := Some(if named then InField(t.fields[i].name, e.value) else e.value);
          return;
        }
      }
      StartRow(true);
      return None;
    }

    function GetLength(): nat
      reads this
    {
      |valid|
    }

    // Gives the column out and starts over.
    method Finish() returns (column: B.Builder)
      requires Tree()
      modifies Repr
      ensures column == old(Contents()) && Contents() == B.EmptyBuilder(t)
    {
      column := Contents();
      Reset();
    }

    method Reset()
      requires Tree()
      modifies Repr
      ensures Contents() == B.EmptyBuilder(t)
      decreases t
    {
      hide B.EmptyBuilder;
      valid, cells, offsets := [], [], [];
      for i := 0 to |kids|
        invariant valid == [] && cells == [] && offsets == []
        invariant forall j | 0 <= j < i :: kids[j].Contents() == B.EmptyBuilder(KidTypes(t)[j])
      {
        assert forall j | 0 <= j < i :: kids[j].Repr !! kids[i].Repr;
        kids[i].Reset();
      }
      NothingInIt();
    }
  }
}
