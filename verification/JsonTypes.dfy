/** JSON documents, the column types they are read into, and the value that a
    document stands for under a type, however it is stored. */
module JsonTypes {
  import opened Wrappers

  /** A number is `Int` when its text is an integer; other numbers keep their text. */
  datatype Json =
    | Null
    | Bool(b: bool)
    | Int(n: int)
    | Float(text: string)
    | String(s: string)
    | Array(items: seq<Json>)
    | Object(members: seq<Member>)

  datatype Member = Member(name: string, value: Json)

  type Width = w: nat | w == 8 || w == 16 || w == 32 || w == 64 witness 8

  datatype Type =
    | NullType
    | BoolType
    | IntType(width: Width, signed: bool)
    | StringType
    | ListType(elem: Type)
    | FixedListType(size: nat, elem: Type)
    | MapType(key: Type, item: Type)
    | StructType(fields: seq<Field>)

  datatype Field = Field(name: string, ftype: Type)

  /** `Text` is the JSON text of a value that is not a string. */
  datatype Value =
    | VNull
    | VBool(vb: bool)
    | VInt(vn: int)
    | VString(vs: string)
    | VText(of: Json)
    | VList(elems: seq<Value>)
    | VMap(keys: seq<Value>, vals: seq<Value>)
    | VStruct(parts: seq<Value>)

  datatype Error =
    | WrongType(expected: string, got: Json)
    | OutOfBounds(n: int)
    | BadPair(size: nat)
    | NullKey
    | BadListSize(size: nat)
    | BadStructSize(size: nat)
    | InField(name: string, inner: Error)
    | NullRows

  // -------------------------------------------------------------------------
  // Integers

  function Pow2(w: Width): nat {
    if w == 8 then 0x100 else if w == 16 then 0x1_0000 else if w == 32 then 0x1_0000_0000 else 0x1_0000_0000_0000_0000
  }

  // static_cast to an integer type of w bits.
  function Cast(w: Width, signed: bool, n: int): int {
    var m := n % Pow2(w);
    if signed && m >= Pow2(w) / 2 then m - Pow2(w) else m
  }

  // The document holds the number as a 64-bit integer of that signedness.
  predicate Is64(v: Json, signed: bool) {
    v.Int? && if signed then -0x8000_0000_0000_0000 <= v.n < 0x8000_0000_0000_0000 else 0 <= v.n < 0x1_0000_0000_0000_0000
  }

  function ParseNumber(w: Width, signed: bool, v: Json): Result<int, Error> {
    if !Is64(v, signed) then Err(WrongType(if signed then "signed int" else "unsigned int", v))
    else if Cast(w, signed, v.n) == v.n then Ok(Cast(w, signed, v.n))
    else Err(OutOfBounds(v.n))
  }

  predicate InRange(w: Width, signed: bool, n: int) {
    if signed then -(Pow2(w) / 2) <= n < Pow2(w) / 2 else 0 <= n < Pow2(w)
  }

  // Exactly the integers in the type's range are accepted, and unchanged.
  lemma {:induction false} ParseNumberExact(w: Width, signed: bool, v: Json)
    ensures match ParseNumber(w, signed, v)
            case Ok(n) => v == Int(n) && InRange(w, signed, n)
            case Err(OutOfBounds(n)) => v == Int(n) && !InRange(w, signed, n)
            case Err(_) => !(v.Int? && InRange(w, signed, v.n))
  {
    if Is64(v, signed) {
      if w == 8 { CastExact(8, signed, v.n); }
      else if w == 16 { CastExact(16, signed, v.n); }
      else if w == 32 { CastExact(32, signed, v.n); }
      else { CastExact(64, signed, v.n); }
    }
    hide Cast;
  }

  lemma {:induction false} CastExact(w: Width, signed: bool, n: int)
    ensures Cast(w, signed, n) == n <==> InRange(w, signed, n)
  {
  }

  function ParseBoolean(v: Json): Result<bool, Error> {
    match v
    case Bool(b) => Ok(b)
    case Int(n) => if -0x8000_0000 <= n < 0x8000_0000 then Ok(n != 0) else Err(WrongType("boolean", v))
    case _ => Err(WrongType("boolean", v))
  }

  // -------------------------------------------------------------------------
  // What a document stands for

  function Map<A, B>(r: Result<A, Error>, f: A -> B): Result<B, Error> {
    match r
    case Ok(x) => Ok(f(x))
    case Err(e) => Err(e)
  }

  function Find(members: seq<Member>, name: string): Json {
    if members == [] then Null
    else if members[0].name == name then members[0].value
    else Find(members[1..], name)
  }

  // FindMember finds the first member of that name; without one the field is null.
  lemma {:induction false} FindIsFirst(members: seq<Member>, name: string) returns (i: nat)
    ensures i <= |members| && (forall j | 0 <= j < i :: members[j].name != name)
    ensures if i < |members| then members[i].name == name && Find(members, name) == members[i].value
            else Find(members, name) == Null
  {
    if members == [] || members[0].name == name {
      i := 0;
    } else {
      var j := FindIsFirst(members[1..], name);
      i := j + 1;
    }
  }

  function Coerce(t: Type, v: Json): Result<Value, Error>
    decreases t, 2
  {
    if v.Null? then Ok(VNull)
    else match t
      case NullType => Err(WrongType("null", v))
      case BoolType => Map(ParseBoolean(v), b => VBool(b))
      case IntType(w, signed) => Map(ParseNumber(w, signed, v), n => VInt(n))
      case StringType => Ok(if v.String? then VString(v.s) else VText(v))
      case ListType(elem) =>
        if !v.Array? then Err(WrongType("array", v)) else Map(CoerceAll(elem, v.items), xs => VList(xs))
      case FixedListType(size, elem) =>
        if !v.Array? then Err(WrongType("array", v))
        else (
          var xs := CoerceAll(elem, v.items);
          if xs.Ok? && |v.items| != size then Err(BadListSize(|v.items|)) else Map(xs, xs => VList(xs)))
      case MapType(_, _) =>
        if !v.Array? then Err(WrongType("array", v))
        else Map(CoercePairs(t, v.items), (ps: (seq<Value>, seq<Value>)) => VMap(ps.0, ps.1))
      case StructType(fields) =>
        match v
        case Array(items) =>
          if |items| != |fields| then Err(BadStructSize(|items|))
          else Map(CoerceFields(t, 0, items, false), xs => VStruct(xs))
        case Object(members) => Map(CoerceFields(t, 0, Named(fields, members), true), xs => VStruct(xs))
        case _ => Err(WrongType("array or object", v))
  }

  // The members of an object in the order of the fields; an omitted one is null.
  function Named(fields: seq<Field>, members: seq<Member>): (items: seq<Json>)
    ensures |items| == |fields|
  {
    seq(|fields|, i requires 0 <= i < |fields| => Find(members, fields[i].name))
  }

  function CoerceAll(t: Type, items: seq<Json>): (r: Result<seq<Value>, Error>)
    ensures r.Ok? ==> |r.value| == |items|
    decreases t, 3, |items|
  {
    if items == [] then Ok([])
    else
      match Coerce(t, items[0])
      case Err(e) => Err(e)
      case Ok(x) => Map(CoerceAll(t, items[1..]), xs => [x] + xs)
  }

  function CoercePairs(t: Type, pairs: seq<Json>): (r: Result<(seq<Value>, seq<Value>), Error>)
    requires t.MapType?
    ensures r.Ok? ==> |r.value.0| == |r.value.1| == |pairs|
    decreases t, 1, |pairs|
  {
    if pairs == [] then Ok(([], []))
    else
      match CheckPair(pairs[0])
      case Some(e) => Err(e)
      case None =>
        match Coerce(t.key, pairs[0].items[0])
        case Err(e) => Err(e)
        case Ok(k) =>
          match Coerce(t.item, pairs[0].items[1])
          case Err(e) => Err(e)
          case Ok(x) => Map(CoercePairs(t, pairs[1..]), (ps: (seq<Value>, seq<Value>)) => ([k] + ps.0, [x] + ps.1))
  }

  function CheckPair(pair: Json): (e: Option<Error>)
    ensures e.None? ==> pair.Array? && |pair.items| == 2 && !pair.items[0].Null?
  {
    if !pair.Array? then Some(WrongType("array", pair))
    else if |pair.items| != 2 then Some(BadPair(|pair.items|))
    else if pair.items[0].Null? then Some(NullKey)
    else None
  }

  // The fields of a struct from the i-th on; an object's errors name the field.
  function CoerceFields(t: Type, i: nat, items: seq<Json>, named: bool): (r: Result<seq<Value>, Error>)
    requires t.StructType? && i <= |t.fields| == |items|
    ensures r.Ok? ==> |r.value| == |items| - i
    decreases t, 1, |items| - i
  {
    if i == |items| then Ok([])
    else
      match Annotated(t, i, named, Coerce(t.fields[i].ftype, items[i]))
      case Err(e) => Err(e)
      case Ok(x) => Map(CoerceFields(t, i + 1, items, named), xs => [x] + xs)
  }

  function Annotated(t: Type, i: nat, named: bool, r: Result<Value, Error>): Result<Value, Error>
    requires t.StructType? && i < |t.fields|
  {
    match r
    case Err(e) => if named then Err(InField(t.fields[i].name, e)) else r
    case Ok(_) => r
  }
}
