/** Reading typed values from the tracee's memory down to a limited depth. */
module Values {
  import opened Base
  import opened TraceeProcess
  import opened Words

  type Memory = map<Addr, Byte>
  type TypeId = nat

  datatype Field = Field(name: string, typ: TypeId, offset: nat)

  /** The types of the fragment. Types refer to each other by number, so that they can be cyclic. */
  datatype Kind =
    | Int | Uint | Bool | Func | Void
    | Ptr(elem: TypeId)
    | Struct(name: string, fields: seq<Field>)
    | Array(elem: TypeId, count: int)
    | Typedef(elem: TypeId)

  datatype TypeInfo = TypeInfo(size: nat, rank: nat, kind: Kind)

  type Types = seq<TypeInfo>

  /** A parsed value with the type it was parsed with. A pointer that was not followed points to None. */
  datatype Value = Value(typ: TypeId, val: Content)

  datatype Content =
    | IntVal(n: int) | UintVal(u: nat) | BoolVal(b: bool) | FuncVal(at: Addr)
    | PtrVal(addr: Addr, pointed: Option<Value>)
    | StringVal(text: seq<Byte>)
    | SliceVal(elems: seq<Option<Value>>)
    | StructVal(fields: map<string, Value>)
    | Abbreviated
    | ArrayVal(items: seq<Value>)
    | VoidVal(raw: seq<Byte>)

  predicate IsString(k: Kind) {
    k.Struct? && k.name == "string"
  }

  predicate IsSlice(k: Kind) {
    k.Struct? && k.name != "string" && |k.name| >= 2 && k.name[..2] == "[]"
  }

  predicate IsOrdinary(k: Kind) {
    k.Struct? && !IsString(k) && !IsSlice(k)
  }

  predicate WordSize(n: nat) {
    n == 1 || n == 2 || n == 4 || n == 8
  }

  /** What the debug information promises of a type. */
  predicate Shaped(types: Types, id: TypeId)
    requires id < |types|
  {
    var t := types[id];
    match t.kind
    case Bool => t.size == 1
    case Func => t.size == 8
    case Ptr(e) => t.size == 8 && e < |types|
    case Typedef(e) => e < |types| && types[e].size == t.size
    case Array(e, count) => e < |types| && (count >= 0 ==> t.size == count * types[e].size)
    case Struct(name, fields) =>
      && name != "runtime.iface" && name != "runtime.eface"
      && FieldsOk(types, fields, t.size)
      && (IsString(t.kind) ==> t.size == 16)
      && (IsSlice(t.kind) ==> SliceShaped(types, t))
    case _ => true
  }

  predicate SliceShaped(types: Types, t: TypeInfo)
    requires t.kind.Struct?
  {
    var fs := t.kind.fields;
    && |fs| == 3 && t.size == 24
    && fs[0].name == "array" && fs[0].offset == 0 && fs[0].typ < |types| && types[fs[0].typ].kind.Ptr?
    && fs[1].name == "len" && fs[1].offset == 8 && fs[1].typ < |types|
    && types[fs[1].typ].kind.Int? && types[fs[1].typ].size == 8
    && fs[2].name == "cap" && fs[2].offset == 16 && fs[2].typ < |types|
    && types[fs[2].typ].kind.Int? && types[fs[2].typ].size == 8
  }

  /** The rank of a type is above those of the types it is made of or points to, unless it is an ordinary
      struct. */
  predicate Falls(types: Types, id: TypeId)
    requires id < |types|
  {
    match types[id].kind
    case Ptr(e) => e < |types| ==> types[e].rank < types[id].rank
    case Typedef(e) => e < |types| ==> types[e].rank < types[id].rank
    case Array(e, _) => e < |types| ==> types[e].rank < types[id].rank
    case Struct(_, fs) =>
      IsSlice(types[id].kind) ==>
        forall i :: 0 <= i < |fs| && fs[i].typ < |types| ==> types[fs[i].typ].rank < types[id].rank
    case _ => true
  }

  predicate KindOk(types: Types, id: TypeId)
    requires id < |types|
  {
    Shaped(types, id) && Falls(types, id)
  }

  predicate TypesOk(types: Types) {
    forall id: nat :: id < |types| ==> KindOk(types, id)
  }

  // ----- what the ranks are for

  /** A type refers to another without being an ordinary struct. */
  predicate Refers(types: Types, a: TypeId, b: TypeId) {
    a < |types| && b < |types| &&
    match types[a].kind
    case Ptr(e) => b == e
    case Typedef(e) => b == e
    case Array(e, _) => b == e
    case Struct(_, fields) => IsSlice(types[a].kind) && exists i :: 0 <= i < |fields| && fields[i].typ == b
    case _ => false
  }

  /** From type to type, past no ordinary struct but at the end. */
  predicate Walk(types: Types, path: seq<TypeId>) {
    |path| >= 2 && forall i :: 0 <= i < |path| - 1 ==> Refers(types, path[i], path[i + 1])
  }

  /** Every cycle of types passes through an ordinary struct. */
  ghost predicate CyclesPassAStruct(types: Types) {
    forall path :: Walk(types, path) ==> path[0] != path[|path| - 1]
  }

  ghost predicate SameTypes(types: Types, ranked: Types) {
    |types| == |ranked| && forall i :: 0 <= i < |types| ==> types[i].(rank := 0) == ranked[i].(rank := 0)
  }

  lemma {:induction false} WalkFalls(types: Types, path: seq<TypeId>)
    requires TypesOk(types) && Walk(types, path)
    ensures path[0] < |types| && path[|path| - 1] < |types|
    ensures types[path[|path| - 1]].rank < types[path[0]].rank
  {
    assert Refers(types, path[0], path[0 + 1]);
    assert KindOk(types, path[0]);
    if |path| > 2 {
      forall i | 0 <= i < |path[1..]| - 1
        ensures Refers(types, path[1..][i], path[1..][i + 1])
      {
        assert Refers(types, path[i + 1], path[i + 1 + 1]);
      }
      WalkFalls(types, path[1..]);
    }
  }

  ghost predicate Leads(types: Types, a: TypeId, b: TypeId) {
    exists path :: Walk(types, path) && path[0] == a && path[|path| - 1] == b
  }

  /** The types that the type leads to. */
  ghost function Below(types: Types, a: TypeId): set<TypeId> {
    set b: TypeId | 0 <= b < |types| && Leads(types, a, b)
  }

  lemma LeadsOn(types: Types, a: TypeId, b: TypeId, c: TypeId)
    requires Refers(types, a, b) && Leads(types, b, c)
    ensures Leads(types, a, c)
  {
    var path :| Walk(types, path) && path[0] == b && path[|path| - 1] == c;
    var longer := [a] + path;
    forall i | 0 <= i < |longer| - 1
      ensures Refers(types, longer[i], longer[i + 1])
    {
      assert i > 0 ==> Refers(types, path[i - 1], path[i - 1 + 1]);
    }
    assert Walk(types, longer) && longer[|longer| - 1] == c;
  }

  lemma FewerBelow(types: Types, a: TypeId, b: TypeId)
    requires CyclesPassAStruct(types) && Refers(types, a, b)
    ensures |Below(types, b)| < |Below(types, a)|
  {
    assert Walk(types, [a, b]);
    assert Leads(types, a, b) && !Leads(types, b, b);
    forall c: TypeId | c in Below(types, b)
      ensures c in Below(types, a)
    {
      LeadsOn(types, a, b, c);
    }
    FewerElements(Below(types, b), Below(types, a), b);
  }

  lemma FewerElements<T>(s: set<T>, t: set<T>, x: T)
    requires s <= t && x in t && x !in s
    ensures |s| < |t|
  {
    NoMoreElements(s, t - {x});
  }

  lemma {:induction false} NoMoreElements<T>(s: set<T>, t: set<T>)
    requires s <= t
    ensures |s| <= |t|
  {
    if x :| x in s {
      NoMoreElements(s - {x}, t - {x});
    }
  }

  ghost function Ranked(types: Types): Types {
    seq(|types|, i requires 0 <= i < |types| => types[i].(rank := |Below(types, i)|))
  }

  lemma RankedFalls(types: Types, id: TypeId)
    requires id < |types| && Shaped(types, id) && CyclesPassAStruct(types)
    ensures KindOk(Ranked(types), id)
  {
    hide CyclesPassAStruct, Below;
    forall b: TypeId | Refers(types, id, b)
      ensures Ranked(types)[b].rank < Ranked(types)[id].rank
    {
      FewerBelow(types, id, b);
    }
    match types[id].kind {
      case Ptr(e) => assert Refers(types, id, e);
      case Typedef(e) => assert Refers(types, id, e);
      case Array(e, _) => assert Refers(types, id, e);
      case Struct(_, fs) =>
        assert IsSlice(types[id].kind) ==> forall i :: 0 <= i < |fs| ==> Refers(types, id, fs[i].typ);
      case _ =>
    }
  }

  /** Ranks can be given if and only if every cycle of types passes through an ordinary struct. */
  lemma RanksExactly(types: Types)
    requires forall id: nat :: id < |types| ==> Shaped(types, id)
    ensures CyclesPassAStruct(types) <==> exists ranked :: SameTypes(types, ranked) && TypesOk(ranked)
  {
    hide Shaped, Falls, KindOk, Below, Refers;
    if CyclesPassAStruct(types) {
      forall id: nat | id < |types|
        ensures KindOk(Ranked(types), id)
      {
        RankedFalls(types, id);
      }
      assert SameTypes(types, Ranked(types));
    }
    if ranked :| SameTypes(types, ranked) && TypesOk(ranked) {
      forall path | Walk(types, path)
        ensures path[0] != path[|path| - 1]
      {
        SameWalk(types, ranked, path);
        WalkFalls(ranked, path);
      }
    }
  }

  lemma SameWalk(types: Types, ranked: Types, path: seq<TypeId>)
    requires SameTypes(types, ranked) && Walk(types, path)
    ensures Walk(ranked, path)
  {
    forall i | 0 <= i < |path| - 1
      ensures Refers(ranked, path[i], path[i + 1])
    {
      assert Refers(types, path[i], path[i + 1]);
    }
  }

  function MaxRank(types: Types, fs: seq<Field>): nat {
    if fs == [] then 0
    else
      var rest := MaxRank(types, fs[..|fs| - 1]);
      var last := fs[|fs| - 1].typ;
      if last < |types| && types[last].rank > rest then types[last].rank else rest
  }

  // ----- what the parser yields; None is a run-time panic

  predicate FieldsOk(types: Types, fs: seq<Field>, size: nat) {
    forall i :: 0 <= i < |fs| ==> fs[i].typ < |types| && fs[i].offset + types[fs[i].typ].size <= size
  }

  function FieldBytes(types: Types, f: Field, bytes: seq<Byte>): seq<Byte>
    requires f.typ < |types| && f.offset + types[f.typ].size <= |bytes|
  {
    bytes[f.offset..f.offset + types[f.typ].size]
  }

  function Decode(mem: Memory, types: Types, id: TypeId, bytes: seq<Byte>, depth: nat): (r: Option<Value>)
    requires TypesOk(types) && id < |types| && |bytes| == types[id].size
    ensures r.Some? ==> r.value.typ < |types| && types[r.value.typ].size == types[id].size
    ensures r.Some? && types[id].kind.Ptr? ==> r.value.val.PtrVal?
    decreases depth, 2 * types[id].rank, 1
  {
    var t := types[id];
    assert KindOk(types, id);
    match t.kind
    case Int =>
      Some(Value(id, if WordSize(t.size) then IntVal(Signed(LittleEndian(bytes), t.size)) else VoidVal(bytes)))
    case Uint => Some(Value(id, if WordSize(t.size) then UintVal(LittleEndian(bytes)) else VoidVal(bytes)))
    case Bool => Some(Value(id, BoolVal(bytes[0] == 1)))
    case Func => Some(Value(id, FuncVal(Word64(bytes))))
    case Void => Some(Value(id, VoidVal(bytes)))
    case Ptr(e) =>
      var addr := Word64(bytes);
      if addr == 0 || types[e].kind.Void? || !Mapped(mem, addr, types[e].size) then Some(Value(id, PtrVal(addr, None)))
      else
        var v :- Decode(mem, types, e, Bytes(mem, addr, types[e].size), depth);
        Some(Value(id, PtrVal(addr, Some(v))))
    case Struct(_, fields) =>
      if IsString(t.kind) then
        var text :- DecodeString(mem, bytes);
        Some(Value(id, StringVal(text)))
      else if IsSlice(t.kind) then
        var elems :- DecodeSlice(mem, types, id, bytes, depth);
        Some(Value(id, SliceVal(elems)))
      else if depth == 0 then Some(Value(id, Abbreviated))
      else
        var all :- DecodeFields(mem, types, fields, bytes, depth - 1);
        Some(Value(id, StructVal(all)))
    case Array(e, count) =>
      if count == -1 then Some(Value(id, VoidVal(bytes)))
      else if count < 0 then Some(Value(id, ArrayVal([])))
      else
        var items :- DecodeItems(mem, types, e, bytes, count, depth);
        Some(Value(id, ArrayVal(items)))
    case Typedef(e) => Decode(mem, types, e, bytes, depth)
  }

  /** The elements of a slice. Its fields are parsed like those of a struct, but no level is used up. */
  function DecodeSlice(mem: Memory, types: Types, id: TypeId, bytes: seq<Byte>, depth: nat): Option<seq<Option<Value>>>
    requires TypesOk(types) && id < |types| && |bytes| == types[id].size && IsSlice(types[id].kind)
    decreases depth, 2 * types[id].rank, 0
  {
    var t := types[id];
    assert KindOk(types, id);
    SliceRank(types, id);
    var ptr := t.kind.fields[0].typ;
    var all :- DecodeFields(mem, types, t.kind.fields, bytes, depth);
    var first :- Decode(mem, types, ptr, bytes[..8], depth);
    var length := Signed(LittleEndian(bytes[8..16]), 8);
    if length == 0 then Some([])
    else if length > 1 && first.val.pointed.None? then None
    else
      var stride := if first.val.pointed.Some? then ValueSize(types, first.val.pointed.value) else 0;
      var rest :- DecodeElements(mem, types, ptr, first.val.addr, stride, 1, length, depth);
      Some([first.val.pointed] + rest)
  }

  function ValueSize(types: Types, v: Value): nat {
    if v.typ < |types| then types[v.typ].size else 0
  }

  lemma SliceFalls(types: Types, id: TypeId)
    requires TypesOk(types) && id < |types| && IsSlice(types[id].kind)
    ensures SliceShaped(types, types[id])
    ensures var fs := types[id].kind.fields;
            && types[fs[0].typ].size == 8 && types[fs[0].typ].rank < types[id].rank
            && types[fs[1].typ].rank < types[id].rank && types[fs[2].typ].rank < types[id].rank
    ensures FieldsOk(types, types[id].kind.fields, types[id].size)
  {
    assert KindOk(types, id) && KindOk(types, types[id].kind.fields[0].typ);
  }

  lemma SliceRank(types: Types, id: TypeId)
    requires TypesOk(types) && id < |types| && IsSlice(types[id].kind)
    ensures SliceShaped(types, types[id])
    ensures MaxRank(types, types[id].kind.fields) < types[id].rank
    ensures types[types[id].kind.fields[0].typ].rank < types[id].rank && types[types[id].kind.fields[0].typ].size == 8
    ensures FieldsOk(types, types[id].kind.fields, types[id].size)
  {
    hide TypesOk, FieldsOk;
    SliceFalls(types, id);
    var fs := types[id].kind.fields;
    assert fs[..2][..1] == fs[..1] && fs[..1][..0] == [];
    assert MaxRank(types, fs[..1]) < types[id].rank;
    assert MaxRank(types, fs[..2]) < types[id].rank;
  }

  /** The longest text that make can take on a 64-bit machine. */
  const MAX_ALLOC: nat := 0x1_0000_0000_0000

  /** Text that cannot be read is empty; a length that is negative or more than make can take is a panic. */
  function DecodeString(mem: Memory, bytes: seq<Byte>): Option<seq<Byte>>
    requires |bytes| == 16
  {
    var addr := Word64(bytes[..8]);
    var len := Signed(LittleEndian(bytes[8..]), 8);
    if len < 0 || len > MAX_ALLOC then None
    else if Mapped(mem, addr, len) then Some(Bytes(mem, addr, len)) else Some([])
  }

  function DecodeFields(mem: Memory, types: Types, fs: seq<Field>, bytes: seq<Byte>, depth: nat)
    : Option<map<string, Value>>
    requires TypesOk(types) && FieldsOk(types, fs, |bytes|)
    decreases depth, 2 * MaxRank(types, fs) + 1, |fs|
  {
    if fs == [] then Some(map[])
    else
      var last := fs[|fs| - 1];
      var before :- DecodeFields(mem, types, fs[..|fs| - 1], bytes, depth);
      var v :- Decode(mem, types, last.typ, FieldBytes(types, last, bytes), depth);
      Some(before[last.name := v])
  }

  function DecodeItems(mem: Memory, types: Types, e: TypeId, bytes: seq<Byte>, count: nat,
                       depth: nat): Option<seq<Value>>
    requires TypesOk(types) && e < |types| && |bytes| == count * types[e].size
    decreases depth, 2 * types[e].rank + 1, count
  {
    if count == 0 then Some([])
    else
      var stride := types[e].size;
      StrideFits(count, stride);
      var before :- DecodeItems(mem, types, e, bytes[..(count - 1) * stride], count - 1, depth);
      var v :- Decode(mem, types, e, bytes[(count - 1) * stride..count * stride], depth);
      Some(before + [v])
  }

  lemma StrideFits(count: nat, stride: nat)
    requires count > 0
    ensures 0 <= (count - 1) * stride <= count * stride && count * stride - (count - 1) * stride == stride
  {
  }

  /** Elements i and later of a slice whose first one is at addr. */
  function DecodeElements(mem: Memory, types: Types, ptr: TypeId, addr: Addr, stride: nat, i: nat, length: int,
                          depth: nat)
    : Option<seq<Option<Value>>>
    requires TypesOk(types) && ptr < |types| && types[ptr].kind.Ptr?
    decreases depth, 2 * types[ptr].rank + 1, length - i
  {
    if i >= length then Some([])
    else
      assert KindOk(types, ptr);
      var v :- Decode(mem, types, ptr, ToBytes(Wrap(addr + stride * i), 8), depth);
      var rest :- DecodeElements(mem, types, ptr, addr, stride, i + 1, length, depth);
      Some([v.val.pointed] + rest)
  }

  // ----- the parser

  method ParseValue(mem: Memory, types: Types, id: TypeId, val: seq<Byte>, remainingDepth: nat)
    returns (r: Option<Value>)
    requires TypesOk(types) && id < |types| && |val| == types[id].size
    ensures r == Decode(mem, types, id, val, remainingDepth)
    decreases remainingDepth, 2 * types[id].rank, 1
  {
    hide TypesOk, DecodeFields, DecodeElements, DecodeItems, DecodeString, MaxRank;
    var t := types[id];
    assert KindOk(types, id) by { KindIsOk(types, id); }
    match t.kind {
      case Int =>
        r := Some(Value(id, if WordSize(t.size) then IntVal(Signed(LittleEndian(val), t.size)) else VoidVal(val)));
      case Uint => r := Some(Value(id, if WordSize(t.size) then UintVal(LittleEndian(val)) else VoidVal(val)));
      case Bool => r := Some(Value(id, BoolVal(val[0] == 1)));
      case Func => r := Some(Value(id, FuncVal(Word64(val))));
      case Void => r := Some(Value(id, VoidVal(val)));
      case Ptr(e) =>
        var addr := Word64(val);
        if addr == 0 || types[e].kind.Void? || !Mapped(mem, addr, types[e].size) {
          return Some(Value(id, PtrVal(addr, None)));
        }
        var pointed := ParseValue(mem, types, e, Bytes(mem, addr, types[e].size), remainingDepth);
        r := if pointed.None? then None else Some(Value(id, PtrVal(addr, pointed)));
      case Struct(_, fields) =>
        if IsString(t.kind) {
          var text := ParseStringValue(mem, val);
          r := if text.None? then None else Some(Value(id, StringVal(text.value)));
        } else if IsSlice(t.kind) {
          r := ParseSliceValue(mem, types, id, val, remainingDepth);
        } else {
          r := ParseStructValue(mem, types, id, val, remainingDepth);
        }
      case Array(e, count) =>
        if count == -1 {
          return Some(Value(id, VoidVal(val)));
        }
        r := ParseArrayValue(mem, types, id, val, remainingDepth);
      case Typedef(e) => r := ParseValue(mem, types, e, val, remainingDepth);
    }
  }

  lemma KindIsOk(types: Types, id: TypeId)
    requires TypesOk(types) && id < |types|
    ensures KindOk(types, id)
  {
  }

  method ParseStringValue(mem: Memory, val: seq<Byte>) returns (r: Option<seq<Byte>>)
    requires |val| == 16
    ensures r == DecodeString(mem, val)
  {
    var addr := Word64(val[..8]);
    var len := Signed(LittleEndian(val[8..]), 8);
    if len < 0 || len > MAX_ALLOC {
      return None;
    }
    if !Mapped(mem, addr, len) {
      return Some([]);
    }
    r := Some(Bytes(mem, addr, len));
  }

  method ParseFields(mem: Memory, types: Types, fs: seq<Field>, val: seq<Byte>, depth: nat)
    returns (r: Option<map<string, Value>>)
    requires TypesOk(types) && FieldsOk(types, fs, |val|)
    ensures r == DecodeFields(mem, types, fs, val, depth)
    decreases depth, 2 * MaxRank(types, fs) + 1, 0
  {
    hide TypesOk, Decode;
    var fields := map[];
    assert fs[..0] == [];
    for i := 0 to |fs|
      invariant DecodeFields(mem, types, fs[..i], val, depth) == Some(fields)
    {
      RankBelow(types, fs, i);
      assert fs[..i + 1][..i] == fs[..i];
      var v := ParseValue(mem, types, fs[i].typ, FieldBytes(types, fs[i], val), depth);
      if v.None? {
        NoFields(mem, types, fs, i + 1, val, depth);
        return None;
      }
      fields := fields[fs[i].name := v.value];
    }
    assert fs[..|fs|] == fs;
    r := Some(fields);
  }

  lemma {:induction false} RankBelow(types: Types, fs: seq<Field>, i: nat)
    requires i < |fs| && fs[i].typ < |types|
    ensures types[fs[i].typ].rank <= MaxRank(types, fs)
  {
    if i < |fs| - 1 {
      RankBelow(types, fs[..|fs| - 1], i);
    }
  }

  /** A panic in the middle is a panic of the whole. */
  lemma {:induction false} NoFields(mem: Memory, types: Types, fs: seq<Field>, i: nat, bytes: seq<Byte>, depth: nat)
    requires TypesOk(types) && FieldsOk(types, fs, |bytes|) && i <= |fs|
    requires DecodeFields(mem, types, fs[..i], bytes, depth).None?
    ensures DecodeFields(mem, types, fs, bytes, depth).None?
    decreases |fs|
  {
    if i < |fs| {
      assert fs[..|fs| - 1][..i] == fs[..i];
      NoFields(mem, types, fs[..|fs| - 1], i, bytes, depth);
    } else {
      assert fs[..i] == fs;
    }
  }

  method ParseStructValue(mem: Memory, types: Types, id: TypeId, val: seq<Byte>, remainingDepth: nat)
    returns (r: Option<Value>)
    requires TypesOk(types) && id < |types| && |val| == types[id].size && IsOrdinary(types[id].kind)
    ensures r == Decode(mem, types, id, val, remainingDepth)
    decreases remainingDepth, 2 * types[id].rank, 0
  {
    hide TypesOk, DecodeFields;
    KindIsOk(types, id);
    if remainingDepth <= 0 {
      return Some(Value(id, Abbreviated));
    }
    var fields := ParseFields(mem, types, types[id].kind.fields, val, remainingDepth - 1);
    r := if fields.None? then None else Some(Value(id, StructVal(fields.value)));
  }

  method ParseArrayValue(mem: Memory, types: Types, id: TypeId, val: seq<Byte>, remainingDepth: nat)
    returns (r: Option<Value>)
    requires TypesOk(types) && id < |types| && |val| == types[id].size && types[id].kind.Array?
    requires types[id].kind.count != -1
    ensures r == Decode(mem, types, id, val, remainingDepth)
    decreases remainingDepth, 2 * types[id].rank, 0
  {
    hide TypesOk;
    KindIsOk(types, id);
    var e, count := types[id].kind.elem, types[id].kind.count;
    var stride := types[e].size;
    var vals: seq<Value> := [];
    var i := 0;
    while i < count
      invariant 0 <= i && (count >= 0 ==> i <= count) && (count < 0 ==> i == 0 && vals == [])
      invariant i * stride <= |val|
      invariant count >= 0 ==> DecodeItems(mem, types, e, val[..i * stride], i, remainingDepth) == Some(vals)
    {
      StrideFits(i + 1, stride);
      MoreStrides(i + 1, count, stride);
      assert val[..(i + 1) * stride][..i * stride] == val[..i * stride];
      assert val[..(i + 1) * stride][i * stride..(i + 1) * stride] == val[i * stride..(i + 1) * stride];
      var v := ParseValue(mem, types, e, val[i * stride..(i + 1) * stride], remainingDepth);
      if v.None? {
        NoItems(mem, types, e, val, i + 1, count, remainingDepth);
        return None;
      }
      vals := vals + [v.value];
      i := i + 1;
    }
    assert count >= 0 ==> val[..count * stride] == val;
    r := Some(Value(id, ArrayVal(vals)));
  }

  lemma MoreStrides(i: nat, count: nat, stride: nat)
    requires i <= count
    ensures i * stride <= count * stride
  {
  }

  lemma {:induction false} NoItems(mem: Memory, types: Types, e: TypeId, bytes: seq<Byte>, i: nat, count: nat,
                                   depth: nat)
    requires TypesOk(types) && e < |types| && |bytes| == count * types[e].size && i <= count
    requires i * types[e].size <= |bytes|
    requires DecodeItems(mem, types, e, bytes[..i * types[e].size], i, depth).None?
    ensures DecodeItems(mem, types, e, bytes, count, depth).None?
    decreases count
  {
    var stride := types[e].size;
    if i < count {
      StrideFits(count, stride);
      MoreStrides(i, count - 1, stride);
      assert bytes[..(count - 1) * stride][..i * stride] == bytes[..i * stride];
      NoItems(mem, types, e, bytes[..(count - 1) * stride], i, count - 1, depth);
    } else {
      assert bytes[..i * stride] == bytes;
    }
  }

  /** The struct that stands for a slice is parsed with one more level, so that its fields, and with them
      the first element, get the level of the slice itself. */
  method ParseSliceValue(mem: Memory, types: Types, id: TypeId, val: seq<Byte>, remainingDepth: nat)
    returns (r: Option<Value>)
    requires TypesOk(types) && id < |types| && |val| == types[id].size && IsSlice(types[id].kind)
    ensures r == Decode(mem, types, id, val, remainingDepth)
    decreases remainingDepth, 2 * types[id].rank, 0
  {
    hide TypesOk, DecodeFields, MaxRank;
    KindIsOk(types, id);
    SliceRank(types, id);
    var fs := types[id].kind.fields;
    var structVal := ParseFields(mem, types, fs, val, remainingDepth);
    if structVal.None? {
      return None;
    }
    SliceFields(mem, types, id, val, remainingDepth);
    var length := structVal.value["len"].val.n;
    if length == 0 {
      return Some(Value(id, SliceVal([])));
    }
    var firstElem := structVal.value["array"];
    var sliceVal := [firstElem.val.pointed];
    if length > 1 && firstElem.val.pointed.None? {
      return None;
    }
    var stride := if firstElem.val.pointed.Some? then ValueSize(types, firstElem.val.pointed.value) else 0;
    var rest := ParseElements(mem, types, fs[0].typ, firstElem.val.addr, stride, length, remainingDepth);
    r := if rest.None? then None else Some(Value(id, SliceVal(sliceVal + rest.value)));
  }

  lemma SliceFields(mem: Memory, types: Types, id: TypeId, bytes: seq<Byte>, depth: nat)
    requires TypesOk(types) && id < |types| && |bytes| == types[id].size && IsSlice(types[id].kind)
    requires FieldsOk(types, types[id].kind.fields, |bytes|) && SliceShaped(types, types[id])
    requires DecodeFields(mem, types, types[id].kind.fields, bytes, depth).Some?
    ensures types[types[id].kind.fields[0].typ].size == 8 && |bytes| == 24
    ensures var m, fs := DecodeFields(mem, types, types[id].kind.fields, bytes, depth).value, types[id].kind.fields;
            && "len" in m && m["len"].val == IntVal(Signed(LittleEndian(bytes[8..16]), 8))
            && "array" in m && Decode(mem, types, fs[0].typ, bytes[..8], depth) == Some(m["array"])
            && m["array"].val.PtrVal?
  {
    hide TypesOk, Decode, MaxRank, KindOk, LittleEndian, Pow256, Signed;
    SliceRank(types, id);
    var fs := types[id].kind.fields;
    assert fs[..2][..1] == fs[..1] && fs[..1][..0] == [];
    var m1 := DecodeFields(mem, types, fs[..1], bytes, depth);
    var m2 := DecodeFields(mem, types, fs[..2], bytes, depth);
    assert m1.Some? && m2.Some?;
    assert FieldBytes(types, fs[0], bytes) == bytes[..8] && FieldBytes(types, fs[1], bytes) == bytes[8..16];
    PointerIsPointer(mem, types, fs[0].typ, bytes[..8], depth);
    LengthIsInt(mem, types, fs[1].typ, bytes[8..16], depth);
  }

  lemma LengthIsInt(mem: Memory, types: Types, id: TypeId, bytes: seq<Byte>, depth: nat)
    requires TypesOk(types) && id < |types| && types[id].kind.Int? && types[id].size == |bytes| == 8
    ensures Decode(mem, types, id, bytes, depth) == Some(Value(id, IntVal(Signed(LittleEndian(bytes), 8))))
  {
  }

  method ParseElements(mem: Memory, types: Types, ptr: TypeId, addr: Addr, stride: nat, length: int, depth: nat)
    returns (r: Option<seq<Option<Value>>>)
    requires TypesOk(types) && ptr < |types| && types[ptr].kind.Ptr?
    ensures r == DecodeElements(mem, types, ptr, addr, stride, 1, length, depth)
    decreases depth, 2 * types[ptr].rank + 1, 0
  {
    hide TypesOk, Decode, DecodeElements, Continues, ToBytes;
    KindIsOk(types, ptr);
    var vals: seq<Option<Value>> := [];
    var i := 1;
    ghost var all := DecodeElements(mem, types, ptr, addr, stride, 1, length, depth);
    ContinuesStart(all, vals);
    while i < length
      invariant 1 <= i && (length >= 1 ==> i <= length)
      invariant Continues(all, vals, DecodeElements(mem, types, ptr, addr, stride, i, length, depth))
    {
      ElementsStep(mem, types, ptr, addr, stride, i, length, depth);
      var buff := ToBytes(Wrap(addr + stride * i), 8);
      var elem := ParseValue(mem, types, ptr, buff, depth);
      if elem.None? {
        ContinuesStart(all, vals);
        return None;
      }
      PointerIsPointer(mem, types, ptr, buff, depth);
      ContinuesStep(all, vals, elem.value.val.pointed, DecodeElements(mem, types, ptr, addr, stride, i, length, depth),
                    DecodeElements(mem, types, ptr, addr, stride, i + 1, length, depth));
      vals := vals + [elem.value.val.pointed];
      i := i + 1;
    }
    ElementsStep(mem, types, ptr, addr, stride, i, length, depth);
    ContinuesStart(all, vals);
    r := Some(vals);
  }

  lemma ElementsStep(mem: Memory, types: Types, ptr: TypeId, addr: Addr, stride: nat, i: nat, length: int, depth: nat)
    requires TypesOk(types) && ptr < |types| && types[ptr].kind.Ptr? && types[ptr].size == 8
    ensures var all := DecodeElements(mem, types, ptr, addr, stride, i, length, depth);
            if i >= length then all == Some([])
            else
              var v := Decode(mem, types, ptr, ToBytes(Wrap(addr + stride * i), 8), depth);
              if v.None? then all.None?
              else
                var tail := DecodeElements(mem, types, ptr, addr, stride, i + 1, length, depth);
                all == if tail.None? then None else Some([v.value.val.pointed] + tail.value)
  {
    hide TypesOk, ToBytes;
  }

  lemma PointerIsPointer(mem: Memory, types: Types, ptr: TypeId, bytes: seq<Byte>, depth: nat)
    requires TypesOk(types) && ptr < |types| && types[ptr].kind.Ptr? && |bytes| == types[ptr].size
    ensures var r := Decode(mem, types, ptr, bytes, depth);
            r.Some? ==> r.value.val.PtrVal?
  {
  }

  // ----- what memory holds, said independently of how it is read

  /** A value as it lies in memory, with what its pointers lead to. `first` is what lies where the first element of a
      slice is, or would be if the slice is empty, and `rest` are the elements behind it. */
  datatype Tree =
    | IntTree(n: int) | UintTree(u: nat) | BoolTree(b: bool) | FuncTree(at: Addr)
    | PtrTree(addr: Addr, pointed: Option<Tree>)
    | StringTree(start: Addr, len: int, text: seq<Byte>)
    | SliceTree(base: Addr, len: int, cap: int, first: Option<Tree>, rest: seq<Option<Tree>>)
    | StructTree(fields: seq<Tree>)
    | ArrayTree(items: seq<Tree>)
    | RawTree(raw: seq<Byte>)

  function Names(fs: seq<Field>): set<string> {
    set i | 0 <= i < |fs| :: fs[i].name
  }

  /** The last field of a name. */
  function Last(fs: seq<Field>, name: string): (i: nat)
    requires name in Names(fs)
    ensures i < |fs| && fs[i].name == name && forall j :: i < j < |fs| ==> fs[j].name != name
  {
    var n := |fs| - 1;
    if fs[n].name == name then n
    else
      var k :| 0 <= k < |fs| && fs[k].name == name;
      assert fs[..n][k].name == name;
      Last(fs[..n], name)
  }

  /** There is a value of the type at addr, as far as depth levels of ordinary structs. */
  ghost predicate HoldsAt(mem: Memory, types: Types, id: TypeId, addr: nat, t: Tree, depth: nat)
    requires TypesOk(types) && id < |types|
    decreases t, types[id].rank, 1
  {
    Mapped(mem, addr, types[id].size) && Holds(mem, types, id, Bytes(mem, addr, types[id].size), t, depth)
  }

  /** No value is read through a pointer that is nil, is to anything at all or leads out of the memory. */
  predicate NotFollowed(mem: Memory, types: Types, e: TypeId, addr: Addr)
    requires e < |types|
  {
    addr == 0 || types[e].kind.Void? || !Mapped(mem, addr, types[e].size)
  }

  /** What a pointer leads to. */
  ghost predicate PointsTo(mem: Memory, types: Types, e: TypeId, addr: Addr, target: Option<Tree>, depth: nat)
    requires TypesOk(types) && e < |types|
    decreases target, types[e].rank, 2
  {
    if target.None? then NotFollowed(mem, types, e, addr)
    else addr != 0 && !types[e].kind.Void? && HoldsAt(mem, types, e, addr, target.value, depth)
  }

  function ElemType(types: Types, id: TypeId): TypeId
    requires TypesOk(types) && id < |types| && IsSlice(types[id].kind)
    ensures ElemType(types, id) < |types|
  {
    assert KindOk(types, id);
    var ptr := types[id].kind.fields[0].typ;
    assert KindOk(types, ptr);
    types[ptr].kind.elem
  }

  /** The bytes are those of the value t of the type, as far as depth levels of ordinary structs; nothing is
      asked of what lies below, so that a heap with cycles has an image for every depth. No bytes are the image
      of a string whose length cannot be allocated, or of a slice of several elements without a first one. */
  ghost predicate Holds(mem: Memory, types: Types, id: TypeId, bytes: seq<Byte>, t: Tree, depth: nat)
    requires TypesOk(types) && id < |types| && |bytes| == types[id].size
    decreases t, types[id].rank, 0
  {
    var k := types[id].kind;
    var size := types[id].size;
    assert KindOk(types, id);
    match k
    case Int =>
      if !WordSize(size) then t == RawTree(bytes)
      else t.IntTree? && InRange(t.n, size) && bytes == SignedBytes(t.n, size)
    case Uint =>
      if !WordSize(size) then t == RawTree(bytes)
      else t.UintTree? && t.u < Pow256(size) && bytes == ToBytes(t.u, size)
    case Bool => t.BoolTree? && (t.b <==> bytes == [1])
    case Func => t.FuncTree? && bytes == ToBytes(t.at, 8)
    case Void => t == RawTree(bytes)
    case Ptr(e) => t.PtrTree? && bytes == ToBytes(t.addr, 8) && PointsTo(mem, types, e, t.addr, t.pointed, depth)
    case Struct(_, fields) =>
      if IsString(k) then
        && t.StringTree? && 0 <= t.len <= MAX_ALLOC
        && bytes == ToBytes(t.start, 8) + ToBytes(t.len, 8)
        && t.text == if Mapped(mem, t.start, t.len) then Bytes(mem, t.start, t.len) else []
      else if IsSlice(k) then
        var e := ElemType(types, id);
        && t.SliceTree? && InRange(t.len, 8) && InRange(t.cap, 8)
        && bytes == ToBytes(t.base, 8) + SignedBytes(t.len, 8) + SignedBytes(t.cap, 8)
        && PointsTo(mem, types, e, t.base, t.first, depth)
        && (t.len > 1 ==> t.first.Some?)
        && |t.rest| == (if t.len > 1 then t.len - 1 else 0)
        && forall i :: 0 <= i < |t.rest| ==>
                         PointsTo(mem, types, e, Wrap(t.base + types[e].size * (i + 1)), t.rest[i], depth)
      else
        t.StructTree? &&
        (depth > 0 ==>
           && |t.fields| == |fields|
           && forall i :: 0 <= i < |fields| ==>
                            Holds(mem, types, fields[i].typ, FieldBytes(types, fields[i], bytes), t.fields[i],
                                  depth - 1))
    case Array(e, count) =>
      if count == -1 then t == RawTree(bytes)
      else if count < 0 then t == ArrayTree([])
      else
        && t.ArrayTree? && |t.items| == count
        && forall i :: 0 <= i < count ==> Holds(mem, types, e, Item(types, e, bytes, count, i), t.items[i], depth)
    case Typedef(e) => Holds(mem, types, e, bytes, t, depth)
  }

  function Item(types: Types, e: TypeId, bytes: seq<Byte>, count: nat, i: nat): (item: seq<Byte>)
    requires e < |types| && |bytes| == count * types[e].size && i < count
    ensures |item| == types[e].size
  {
    StrideFits(i + 1, types[e].size);
    MoreStrides(i + 1, count, types[e].size);
    bytes[i * types[e].size..(i + 1) * types[e].size]
  }

  /** The value with what lies below the given number of ordinary structs left out. */
  function Cut(types: Types, id: TypeId, t: Tree, depth: nat): Value
    requires TypesOk(types)
    decreases t, if id < |types| then types[id].rank else 0
  {
    if id >= |types| then Value(id, VoidVal([]))
    else
      assert KindOk(types, id);
      match (types[id].kind, t)
      case (Typedef(e), _) => Cut(types, e, t, depth)
      case (_, IntTree(n)) => Value(id, IntVal(n))
      case (_, UintTree(u)) => Value(id, UintVal(u))
      case (_, BoolTree(b)) => Value(id, BoolVal(b))
      case (_, FuncTree(at)) => Value(id, FuncVal(at))
      case (Ptr(e), PtrTree(addr, target)) => Value(id, PtrVal(addr, CutTarget(types, e, target, depth)))
      case (_, StringTree(_, _, text)) => Value(id, StringVal(text))
      case (Struct(_, fs), SliceTree(_, len, _, first, rest)) =>
        if !IsSlice(types[id].kind) then Value(id, VoidVal([]))
        else if len == 0 then Value(id, SliceVal([]))
        else
          var e := ElemType(types, id);
          var cuts := seq(|rest|, i requires 0 <= i < |rest| => CutTarget(types, e, rest[i], depth));
          Value(id, SliceVal([CutTarget(types, e, first, depth)] + cuts))
      case (Struct(_, fs), StructTree(trees)) =>
        if depth == 0 then Value(id, Abbreviated)
        else if |trees| != |fs| then Value(id, VoidVal([]))
        else
          Value(id, StructVal(map name | name in Names(fs) ::
                                Cut(types, fs[Last(fs, name)].typ, trees[Last(fs, name)], depth - 1)))
      case (Array(e, _), ArrayTree(items)) =>
        Value(id, ArrayVal(seq(|items|, i requires 0 <= i < |items| => Cut(types, e, items[i], depth))))
      case (_, RawTree(raw)) => Value(id, VoidVal(raw))
      case _ => Value(id, VoidVal([]))
  }

  function CutTarget(types: Types, e: TypeId, target: Option<Tree>, depth: nat): Option<Value>
    requires TypesOk(types)
    decreases target, if e < |types| then types[e].rank else 0
  {
    if target.None? then None else Some(Cut(types, e, target.value, depth))
  }

  // ----- the parser yields what memory holds

  lemma WordBack(a: Addr)
    ensures |ToBytes(a, 8)| == 8 && Word64(ToBytes(a, 8)) == a
  {
    Widths();
    ReadsBack(a, 8);
  }

  lemma LengthBack(n: nat)
    requires 2 * n < TWO_TO_THE_64
    ensures Signed(LittleEndian(ToBytes(n, 8)), 8) == n
  {
    Widths();
    ReadsBack(n, 8);
  }

  lemma ItemOfInit(types: Types, e: TypeId, bytes: seq<Byte>, count: nat, i: nat)
    requires e < |types| && |bytes| == count * types[e].size && i + 1 < count
    requires 0 <= (count - 1) * types[e].size <= |bytes|
    ensures Item(types, e, bytes[..(count - 1) * types[e].size], count - 1, i) == Item(types, e, bytes, count, i)
  {
    StrideFits(i + 1, types[e].size);
    MoreStrides(i + 1, count - 1, types[e].size);
  }

  /** Item by item, element by element and field by field: what the parser yields for the parts. */
  lemma {:induction false} ItemsFaithful(mem: Memory, types: Types, e: TypeId, bytes: seq<Byte>, count: nat,
                                         depth: nat, items: seq<Value>)
    requires TypesOk(types) && e < |types| && |bytes| == count * types[e].size && |items| == count
    requires forall i :: 0 <= i < count ==>
                           Decode(mem, types, e, Item(types, e, bytes, count, i), depth) == Some(items[i])
    ensures DecodeItems(mem, types, e, bytes, count, depth) == Some(items)
    decreases count
  {
    hide TypesOk, Decode;
    if count > 0 {
      var stride := types[e].size;
      StrideFits(count, stride);
      var init, before := bytes[..(count - 1) * stride], items[..count - 1];
      forall i | 0 <= i < |before|
        ensures Decode(mem, types, e, Item(types, e, init, count - 1, i), depth) == Some(before[i])
      {
        ItemOfInit(types, e, bytes, count, i);
      }
      ItemsFaithful(mem, types, e, init, count - 1, depth, before);
      assert Item(types, e, bytes, count, count - 1) == bytes[(count - 1) * stride..count * stride];
      assert items == before + [items[count - 1]];
    }
  }

  predicate ElementIs(mem: Memory, types: Types, ptr: TypeId, addr: Addr, offset: nat, depth: nat, x: Option<Value>)
    requires TypesOk(types) && ptr < |types| && types[ptr].kind.Ptr? && types[ptr].size == 8
  {
    var v := Decode(mem, types, ptr, ToBytes(Wrap(addr + offset), 8), depth);
    v.Some? && v.value.val.pointed == x
  }

  lemma {:induction false} ElementsFaithful(mem: Memory, types: Types, ptr: TypeId, addr: Addr, stride: nat, i: nat,
                                            len: int, values: seq<Option<Value>>, depth: nat)
    requires TypesOk(types) && ptr < |types| && types[ptr].kind.Ptr? && types[ptr].size == 8
    requires |values| == if len > i then len - i else 0
    requires forall k: nat :: k < |values| ==>
                                ElementIs(mem, types, ptr, addr, stride * (k + i), depth, values[k])
    ensures DecodeElements(mem, types, ptr, addr, stride, i, len, depth) == Some(values)
    decreases |values|
  {
    hide TypesOk, Decode, ToBytes, DecodeElements;
    ElementsStep(mem, types, ptr, addr, stride, i, len, depth);
    if i < len {
      assert ElementIs(mem, types, ptr, addr, stride * (0 + i), depth, values[0]);
      forall k: nat | k < |values[1..]|
        ensures ElementIs(mem, types, ptr, addr, stride * (k + (i + 1)), depth, values[1..][k])
      {
        assert k + (i + 1) == (k + 1) + i;
        assert ElementIs(mem, types, ptr, addr, stride * ((k + 1) + i), depth, values[k + 1]);
      }
      ElementsFaithful(mem, types, ptr, addr, stride, i + 1, len, values[1..], depth);
      assert values == [values[0]] + values[1..];
    }
  }

  /** The cut values of the fields by their names; of fields with one name the last one counts. */
  function CutFields(types: Types, fs: seq<Field>, trees: seq<Tree>, depth: nat): map<string, Value>
    requires TypesOk(types) && |fs| == |trees|
  {
    map name | name in Names(fs) :: Cut(types, fs[Last(fs, name)].typ, trees[Last(fs, name)], depth)
  }

  lemma LastStep(fs: seq<Field>)
    requires fs != []
    ensures var init, last := fs[..|fs| - 1], fs[|fs| - 1];
            && Names(fs) == Names(init) + {last.name} && Last(fs, last.name) == |fs| - 1
            && forall name :: name in Names(init) && name != last.name ==> Last(fs, name) == Last(init, name)
  {
    var init, last := fs[..|fs| - 1], fs[|fs| - 1];
    forall name | name in Names(fs)
      ensures name in Names(init) + {last.name}
    {
      var i :| 0 <= i < |fs| && fs[i].name == name;
      assert i < |init| ==> init[i].name == name;
    }
    forall name | name in Names(init)
      ensures name in Names(fs)
    {
      var i :| 0 <= i < |init| && init[i].name == name;
      assert fs[i].name == name;
    }
    assert fs[|fs| - 1].name in Names(fs);
  }

  lemma CutFieldsStep(types: Types, fs: seq<Field>, trees: seq<Tree>, depth: nat)
    requires TypesOk(types) && |fs| == |trees| > 0
    ensures var n := |fs| - 1;
            CutFields(types, fs, trees, depth)
            == CutFields(types, fs[..n], trees[..n], depth)[fs[n].name := Cut(types, fs[n].typ, trees[n], depth)]
  {
    hide TypesOk, Cut, Names, Last;
    LastStep(fs);
  }

  lemma {:induction false} FieldsFaithful(mem: Memory, types: Types, fs: seq<Field>, bytes: seq<Byte>, depth: nat,
                                          trees: seq<Tree>)
    requires TypesOk(types) && FieldsOk(types, fs, |bytes|) && |fs| == |trees|
    requires forall i :: 0 <= i < |fs| ==>
                           Decode(mem, types, fs[i].typ, FieldBytes(types, fs[i], bytes), depth)
                           == Some(Cut(types, fs[i].typ, trees[i], depth))
    ensures DecodeFields(mem, types, fs, bytes, depth) == Some(CutFields(types, fs, trees, depth))
    decreases |fs|
  {
    hide TypesOk, Decode, Cut, Names, CutFields, FieldBytes;
    if fs != [] {
      CutFieldsStep(types, fs, trees, depth);
      FieldsFaithful(mem, types, fs[..|fs| - 1], bytes, depth, trees[..|fs| - 1]);
    } else {
      NoCutFields(types, depth);
    }
  }

  lemma NoCutFields(types: Types, depth: nat)
    requires TypesOk(types)
    ensures Names([]) == {} && CutFields(types, [], [], depth) == map[]
  {
  }

  lemma PointerFaithful(mem: Memory, types: Types, ptr: TypeId, addr: Addr, v: Value, depth: nat)
    requires TypesOk(types) && ptr < |types| && types[ptr].kind.Ptr? && types[ptr].size == 8
    requires types[ptr].kind.elem < |types|
    requires var e := types[ptr].kind.elem;
             && addr != 0 && !types[e].kind.Void? && Mapped(mem, addr, types[e].size)
             && Decode(mem, types, e, Bytes(mem, addr, types[e].size), depth) == Some(v)
    ensures Decode(mem, types, ptr, ToBytes(addr, 8), depth) == Some(Value(ptr, PtrVal(addr, Some(v))))
  {
    hide TypesOk, ToBytes, Word64;
    WordBack(addr);
  }

  lemma NilFaithful(mem: Memory, types: Types, ptr: TypeId, addr: Addr, depth: nat)
    requires TypesOk(types) && ptr < |types| && types[ptr].kind.Ptr? && types[ptr].size == 8
    requires types[ptr].kind.elem < |types| && NotFollowed(mem, types, types[ptr].kind.elem, addr)
    ensures Decode(mem, types, ptr, ToBytes(addr, 8), depth) == Some(Value(ptr, PtrVal(addr, None)))
  {
    hide TypesOk, ToBytes, Word64;
    WordBack(addr);
  }

  lemma PlainFaithful(mem: Memory, types: Types, id: TypeId, bytes: seq<Byte>, t: Tree, depth: nat)
    requires TypesOk(types) && id < |types| && |bytes| == types[id].size && Holds(mem, types, id, bytes, t, depth)
    requires var k := types[id].kind; k.Int? || k.Uint? || k.Bool? || k.Func? || k.Void?
    ensures Decode(mem, types, id, bytes, depth) == Some(Cut(types, id, t, depth))
  {
    hide TypesOk, ToBytes, SignedBytes, LittleEndian, Word64, Signed;
    KindIsOk(types, id);
    match types[id].kind {
      case Int =>
        if WordSize(types[id].size) {
          SignedBack(t.n, types[id].size);
        }
      case Uint =>
        if WordSize(types[id].size) {
          ReadsBack(t.u, types[id].size);
        }
      case Bool => assert bytes == [bytes[0]];
      case Func => WordBack(t.at);
      case _ =>
    }
  }

  lemma StringFaithful(mem: Memory, types: Types, id: TypeId, bytes: seq<Byte>, t: Tree, depth: nat)
    requires TypesOk(types) && id < |types| && |bytes| == types[id].size && Holds(mem, types, id, bytes, t, depth)
    requires IsString(types[id].kind)
    ensures Decode(mem, types, id, bytes, depth) == Some(Cut(types, id, t, depth))
  {
    hide TypesOk, ToBytes, LittleEndian, Word64, Signed;
    WordBack(t.start);
    LengthBack(t.len);
    assert bytes[..8] == ToBytes(t.start, 8) && bytes[8..] == ToBytes(t.len, 8);
  }

  /** What becomes of a slice once its first element is known. */
  lemma SliceDecodes(mem: Memory, types: Types, id: TypeId, bytes: seq<Byte>, base: Addr, len: int, cap: int,
                     pointed: Option<Value>, depth: nat)
    requires TypesOk(types) && id < |types| && |bytes| == types[id].size && IsSlice(types[id].kind)
    requires SliceShaped(types, types[id]) && types[types[id].kind.fields[0].typ].size == 8
    requires InRange(len, 8) && InRange(cap, 8)
    requires bytes == ToBytes(base, 8) + SignedBytes(len, 8) + SignedBytes(cap, 8)
    requires var ptr := types[id].kind.fields[0].typ;
             Decode(mem, types, ptr, ToBytes(base, 8), depth) == Some(Value(ptr, PtrVal(base, pointed)))
    ensures Decode(mem, types, id, bytes, depth)
            == if len == 0 then Some(Value(id, SliceVal([])))
               else if len > 1 && pointed.None? then None
               else
                 var stride := if pointed.Some? then ValueSize(types, pointed.value) else 0;
                 var rest := DecodeElements(mem, types, types[id].kind.fields[0].typ, base, stride, 1, len, depth);
                 if rest.None? then None else Some(Value(id, SliceVal([pointed] + rest.value)))
  {
    hide TypesOk, ToBytes, DecodeFields, DecodeItems, DecodeElements, DecodeString, LittleEndian, SignedBytes;
    hide Word64, Signed, MaxRank, SliceShaped, InRange;
    KindIsOk(types, id);
    SliceRank(types, id);
    ThreeWords(bytes, ToBytes(base, 8), SignedBytes(len, 8), SignedBytes(cap, 8));
    SignedBack(len, 8);
    SliceFieldsDecode(mem, types, types[id], bytes, depth);
  }

  lemma ThreeWords(bytes: seq<Byte>, a: seq<Byte>, b: seq<Byte>, c: seq<Byte>)
    requires bytes == a + b + c && |a| == |b| == |c| == 8
    ensures |bytes| == 24 && bytes[..8] == a && bytes[8..16] == b && bytes[16..24] == c
  {
  }

  lemma SliceFieldsDecode(mem: Memory, types: Types, t: TypeInfo, bytes: seq<Byte>, depth: nat)
    requires TypesOk(types) && t.kind.Struct? && SliceShaped(types, t) && FieldsOk(types, t.kind.fields, |bytes|)
    requires |bytes| == 24
    requires types[t.kind.fields[0].typ].size == 8 && Decode(mem, types, t.kind.fields[0].typ, bytes[..8], depth).Some?
    ensures DecodeFields(mem, types, t.kind.fields, bytes, depth).Some?
  {
    hide TypesOk, Decode, KindOk, LittleEndian, Signed;
    var fs := t.kind.fields;
    assert fs[..2][..1] == fs[..1] && fs[..1][..0] == [];
    assert FieldBytes(types, fs[0], bytes) == bytes[..8];
    LengthIsInt(mem, types, fs[1].typ, FieldBytes(types, fs[1], bytes), depth);
    LengthIsInt(mem, types, fs[2].typ, FieldBytes(types, fs[2], bytes), depth);
    assert DecodeFields(mem, types, fs[..1], bytes, depth).Some?;
    assert DecodeFields(mem, types, fs[..2], bytes, depth).Some?;
  }

  lemma DecodedSize(mem: Memory, types: Types, id: TypeId, bytes: seq<Byte>, depth: nat)
    requires TypesOk(types) && id < |types| && |bytes| == types[id].size
    ensures var r := Decode(mem, types, id, bytes, depth);
            r.Some? ==> ValueSize(types, r.value) == types[id].size
  {
    hide TypesOk;
  }

  lemma ElemOfPtr(types: Types, id: TypeId)
    requires TypesOk(types) && id < |types| && IsSlice(types[id].kind) && SliceShaped(types, types[id])
    ensures |types[id].kind.fields| == 3 && types[id].kind.fields[0].typ < |types|
    ensures var ptr := types[id].kind.fields[0].typ;
            types[ptr].kind.Ptr? && types[ptr].kind.elem == ElemType(types, id) && types[ptr].size == 8
  {
    KindIsOk(types, types[id].kind.fields[0].typ);
  }

  /** What is read through a pointer. */
  lemma {:induction false} TargetFaithful(mem: Memory, types: Types, ptr: TypeId, addr: Addr, target: Option<Tree>,
                                          depth: nat)
    requires TypesOk(types) && ptr < |types| && types[ptr].kind.Ptr? && types[ptr].size == 8
    requires types[ptr].kind.elem < |types| && PointsTo(mem, types, types[ptr].kind.elem, addr, target, depth)
    ensures Decode(mem, types, ptr, ToBytes(addr, 8), depth)
            == Some(Value(ptr, PtrVal(addr, CutTarget(types, types[ptr].kind.elem, target, depth))))
    ensures target.Some? ==>
              ValueSize(types, Cut(types, types[ptr].kind.elem, target.value, depth))
              == types[types[ptr].kind.elem].size
    decreases target, types[types[ptr].kind.elem].rank, 2
  {
    hide TypesOk, ToBytes, Decode, Cut, ValueSize, Holds;
    var e := types[ptr].kind.elem;
    if target.Some? {
      Faithful(mem, types, e, Bytes(mem, addr, types[e].size), target.value, depth);
      DecodedSize(mem, types, e, Bytes(mem, addr, types[e].size), depth);
      PointerFaithful(mem, types, ptr, addr, Cut(types, e, target.value, depth), depth);
    } else {
      NilFaithful(mem, types, ptr, addr, depth);
    }
  }

  /** The cut elements behind the first. */
  function CutRest(types: Types, e: TypeId, rest: seq<Option<Tree>>, depth: nat): (cuts: seq<Option<Value>>)
    requires TypesOk(types)
    ensures |cuts| == |rest|
  {
    seq(|rest|, i requires 0 <= i < |rest| => CutTarget(types, e, rest[i], depth))
  }

  lemma CutSlice(types: Types, id: TypeId, t: Tree, depth: nat)
    requires TypesOk(types) && id < |types| && IsSlice(types[id].kind) && t.SliceTree?
    ensures var e := ElemType(types, id);
            Cut(types, id, t, depth)
            == Value(id, SliceVal(if t.len == 0 then []
                                  else [CutTarget(types, e, t.first, depth)] + CutRest(types, e, t.rest, depth)))
  {
    hide TypesOk, CutTarget;
  }

  lemma {:induction false} SliceFaithful(mem: Memory, types: Types, id: TypeId, bytes: seq<Byte>, t: Tree, depth: nat)
    requires TypesOk(types) && id < |types| && |bytes| == types[id].size && Holds(mem, types, id, bytes, t, depth)
    requires IsSlice(types[id].kind)
    ensures Decode(mem, types, id, bytes, depth) == Some(Cut(types, id, t, depth))
    decreases t, types[id].rank, 0
  {
    hide TypesOk, ToBytes, Decode, LittleEndian, Signed, SignedBytes, InRange, Cut, CutTarget, DecodeElements;
    hide PointsTo, ElementIs, ValueSize, ElemType;
    KindIsOk(types, id);
    var e := ElemType(types, id);
    var ptr := types[id].kind.fields[0].typ;
    ElemOfPtr(types, id);
    CutSlice(types, id, t, depth);
    TargetFaithful(mem, types, ptr, t.base, t.first, depth);
    forall k: nat | k < |t.rest|
      ensures ElementIs(mem, types, ptr, t.base, types[e].size * (k + 1), depth, CutRest(types, e, t.rest, depth)[k])
    {
      TargetFaithful(mem, types, ptr, Wrap(t.base + types[e].size * (k + 1)), t.rest[k], depth);
      ElementBy(mem, types, ptr, t.base, types[e].size * (k + 1), depth, CutTarget(types, e, t.rest[k], depth));
    }
    ElementsFaithful(mem, types, ptr, t.base, types[e].size, 1, t.len, CutRest(types, e, t.rest, depth), depth);
    FirstIsCut(types, e, t.first, depth);
    NoElements(mem, types, ptr, t.base, types[e].size, t.len, depth);
    SliceDecodes(mem, types, id, bytes, t.base, t.len, t.cap, CutTarget(types, e, t.first, depth), depth);
  }

  lemma FirstIsCut(types: Types, e: TypeId, target: Option<Tree>, depth: nat)
    requires TypesOk(types)
    ensures var cut := CutTarget(types, e, target, depth);
            cut == if target.None? then None else Some(Cut(types, e, target.value, depth))
  {
  }

  lemma ElementBy(mem: Memory, types: Types, ptr: TypeId, base: Addr, offset: nat, depth: nat, x: Option<Value>)
    requires TypesOk(types) && ptr < |types| && types[ptr].kind.Ptr? && types[ptr].size == 8
    requires Decode(mem, types, ptr, ToBytes(Wrap(base + offset), 8), depth)
             == Some(Value(ptr, PtrVal(Wrap(base + offset), x)))
    ensures ElementIs(mem, types, ptr, base, offset, depth, x)
  {
  }

  /** Of one element or fewer there is nothing behind the first, whatever the distance. */
  lemma NoElements(mem: Memory, types: Types, ptr: TypeId, base: Addr, stride: nat, len: int, depth: nat)
    requires TypesOk(types) && ptr < |types| && types[ptr].kind.Ptr?
    ensures len <= 1 ==> DecodeElements(mem, types, ptr, base, 0, 1, len, depth) == Some([])
    ensures len <= 1 ==> DecodeElements(mem, types, ptr, base, stride, 1, len, depth) == Some([])
  {
  }

  lemma {:induction false} ArrayFaithful(mem: Memory, types: Types, id: TypeId, bytes: seq<Byte>, t: Tree, depth: nat)
    requires TypesOk(types) && id < |types| && |bytes| == types[id].size && Holds(mem, types, id, bytes, t, depth)
    requires types[id].kind.Array?
    ensures Decode(mem, types, id, bytes, depth) == Some(Cut(types, id, t, depth))
    decreases t, types[id].rank, 0
  {
    hide TypesOk, ToBytes, DecodeItems, Item;
    KindIsOk(types, id);
    var e, count := types[id].kind.elem, types[id].kind.count;
    if count >= 0 {
      forall i | 0 <= i < count
        ensures Decode(mem, types, e, Item(types, e, bytes, count, i), depth) == Some(Cut(types, e, t.items[i], depth))
      {
        Faithful(mem, types, e, Item(types, e, bytes, count, i), t.items[i], depth);
      }
      var items := seq(count, i requires 0 <= i < count => Cut(types, e, t.items[i], depth));
      ItemsFaithful(mem, types, e, bytes, count, depth, items);
      assert Cut(types, id, t, depth).val.items == items;
    } else if count < -1 {
      assert Cut(types, id, t, depth).val.items == [];
    }
  }

  lemma StructUnfolds(mem: Memory, types: Types, id: TypeId, bytes: seq<Byte>, t: Tree, depth: nat)
    requires TypesOk(types) && id < |types| && |bytes| == types[id].size && IsOrdinary(types[id].kind)
    requires FieldsOk(types, types[id].kind.fields, |bytes|)
    requires t.StructTree? && (depth > 0 ==> |t.fields| == |types[id].kind.fields|)
    ensures Decode(mem, types, id, bytes, depth)
            == if depth == 0 then Some(Value(id, Abbreviated))
               else
                 var all := DecodeFields(mem, types, types[id].kind.fields, bytes, depth - 1);
                 if all.None? then None else Some(Value(id, StructVal(all.value)))
    ensures Cut(types, id, t, depth)
            == if depth == 0 then Value(id, Abbreviated)
               else Value(id, StructVal(CutFields(types, types[id].kind.fields, t.fields, depth - 1)))
  {
    hide TypesOk, DecodeFields, Names, Last;
  }

  lemma {:induction false} StructFaithful(mem: Memory, types: Types, id: TypeId, bytes: seq<Byte>, t: Tree, depth: nat)
    requires TypesOk(types) && id < |types| && |bytes| == types[id].size && Holds(mem, types, id, bytes, t, depth)
    requires IsOrdinary(types[id].kind)
    ensures Decode(mem, types, id, bytes, depth) == Some(Cut(types, id, t, depth))
    decreases t, types[id].rank, 0
  {
    hide TypesOk, Decode, Cut, DecodeFields, Names, CutFields;
    KindIsOk(types, id);
    var fields := types[id].kind.fields;
    StructUnfolds(mem, types, id, bytes, t, depth);
    if depth > 0 {
      forall i | 0 <= i < |fields|
        ensures Decode(mem, types, fields[i].typ, FieldBytes(types, fields[i], bytes), depth - 1)
                == Some(Cut(types, fields[i].typ, t.fields[i], depth - 1))
      {
        Faithful(mem, types, fields[i].typ, FieldBytes(types, fields[i], bytes), t.fields[i], depth - 1);
      }
      FieldsFaithful(mem, types, fields, bytes, depth - 1, t.fields);
    }
  }

  /** Main result: where memory holds a value, the parser yields that value, cut at the given number of
      ordinary structs. */
  lemma {:induction false} Faithful(mem: Memory, types: Types, id: TypeId, bytes: seq<Byte>, t: Tree, depth: nat)
    requires TypesOk(types) && id < |types| && |bytes| == types[id].size && Holds(mem, types, id, bytes, t, depth)
    ensures Decode(mem, types, id, bytes, depth) == Some(Cut(types, id, t, depth))
    decreases t, types[id].rank, 1
  {
    hide TypesOk, ToBytes, DecodeFields, DecodeItems, DecodeElements, DecodeString, LittleEndian;
    hide Word64, Signed, SignedBytes, Last;
    KindIsOk(types, id);
    match types[id].kind {
      case Ptr(e) =>
        TargetFaithful(mem, types, id, t.addr, t.pointed, depth);
      case Typedef(e) => Faithful(mem, types, e, bytes, t, depth);
      case Array(_, _) => ArrayFaithful(mem, types, id, bytes, t, depth);
      case Struct(_, _) =>
        if IsString(types[id].kind) {
          StringFaithful(mem, types, id, bytes, t, depth);
        } else if IsSlice(types[id].kind) {
          SliceFaithful(mem, types, id, bytes, t, depth);
        } else {
          StructFaithful(mem, types, id, bytes, t, depth);
        }
      case _ => PlainFaithful(mem, types, id, bytes, t, depth);
    }
  }

  // ----- and nothing else: what the parser yields is the image of something

  lemma WordBytesBack(bytes: seq<Byte>)
    requires |bytes| == 8
    ensures ToBytes(Word64(bytes), 8) == bytes
  {
    BytesBack(bytes);
  }

  lemma PlainImage(mem: Memory, types: Types, id: TypeId, bytes: seq<Byte>, depth: nat) returns (t: Tree)
    requires TypesOk(types) && id < |types| && |bytes| == types[id].size
    requires var k := types[id].kind; k.Int? || k.Uint? || k.Bool? || k.Func? || k.Void?
    ensures Holds(mem, types, id, bytes, t, depth)
  {
    hide TypesOk, ToBytes, SignedBytes, LittleEndian, Word64, Signed, InRange;
    KindIsOk(types, id);
    t := RawTree(bytes);
    match types[id].kind {
      case Int =>
        if WordSize(types[id].size) {
          SignedBytesBack(bytes);
          t := IntTree(Signed(LittleEndian(bytes), |bytes|));
        }
      case Uint =>
        if WordSize(types[id].size) {
          BytesBack(bytes);
          t := UintTree(LittleEndian(bytes));
        }
      case Bool => t := BoolTree(bytes == [1]);
      case Func =>
        WordBytesBack(bytes);
        t := FuncTree(Word64(bytes));
      case _ =>
    }
  }

  lemma StringImage(mem: Memory, types: Types, id: TypeId, bytes: seq<Byte>, depth: nat) returns (t: Tree)
    requires TypesOk(types) && id < |types| && |bytes| == types[id].size && IsString(types[id].kind)
    requires Decode(mem, types, id, bytes, depth).Some?
    ensures Holds(mem, types, id, bytes, t, depth)
  {
    hide TypesOk, ToBytes, LittleEndian, Word64, Signed, InRange;
    KindIsOk(types, id);
    WordBytesBack(bytes[..8]);
    SignedBytesBack(bytes[8..]);
    var start, len := Word64(bytes[..8]), Signed(LittleEndian(bytes[8..]), 8);
    assert bytes == bytes[..8] + bytes[8..];
    t := StringTree(start, len, if Mapped(mem, start, len) then Bytes(mem, start, len) else []);
  }

  lemma {:induction false} TargetImage(mem: Memory, types: Types, ptr: TypeId, addr: Addr, depth: nat)
    returns (target: Option<Tree>)
    requires TypesOk(types) && ptr < |types| && types[ptr].kind.Ptr? && types[ptr].size == 8
    requires types[ptr].kind.elem < |types| && Decode(mem, types, ptr, ToBytes(addr, 8), depth).Some?
    ensures PointsTo(mem, types, types[ptr].kind.elem, addr, target, depth)
    ensures Decode(mem, types, ptr, ToBytes(addr, 8), depth)
            == Some(Value(ptr, PtrVal(addr, CutTarget(types, types[ptr].kind.elem, target, depth))))
    ensures target.Some? ==>
              ValueSize(types, Cut(types, types[ptr].kind.elem, target.value, depth))
              == types[types[ptr].kind.elem].size
    decreases depth, 2 * types[ptr].rank, 0
  {
    hide TypesOk, ToBytes, Holds, Cut, CutTarget, ValueSize, Word64;
    KindIsOk(types, ptr);
    WordBack(addr);
    var e := types[ptr].kind.elem;
    target := None;
    if !NotFollowed(mem, types, e, addr) {
      var t := Image(mem, types, e, Bytes(mem, addr, types[e].size), depth);
      target := Some(t);
    }
    TargetFaithful(mem, types, ptr, addr, target, depth);
  }

  lemma {:induction false} RestImages(mem: Memory, types: Types, ptr: TypeId, addr: Addr, stride: nat, i: nat, len: int,
                                      depth: nat)
    returns (rest: seq<Option<Tree>>)
    requires TypesOk(types) && ptr < |types| && types[ptr].kind.Ptr? && types[ptr].size == 8
    requires types[ptr].kind.elem < |types| && DecodeElements(mem, types, ptr, addr, stride, i, len, depth).Some?
    ensures |rest| == if len > i then len - i else 0
    ensures forall k: nat :: k < |rest| ==>
                               PointsTo(mem, types, types[ptr].kind.elem, Wrap(addr + stride * (k + i)), rest[k], depth)
    decreases depth, 2 * types[ptr].rank + 1, if len > i then len - i else 0
  {
    hide TypesOk, ToBytes, Decode, PointsTo, DecodeElements;
    ElementsStep(mem, types, ptr, addr, stride, i, len, depth);
    rest := [];
    if i < len {
      var e := types[ptr].kind.elem;
      var first := TargetImage(mem, types, ptr, Wrap(addr + stride * i), depth);
      var others := RestImages(mem, types, ptr, addr, stride, i + 1, len, depth);
      rest := [first] + others;
      forall k: nat | k < |rest|
        ensures PointsTo(mem, types, e, Wrap(addr + stride * (k + i)), rest[k], depth)
      {
        if k > 0 {
          assert k + i == (k - 1) + (i + 1);
          assert PointsTo(mem, types, e, Wrap(addr + stride * ((k - 1) + (i + 1))), others[k - 1], depth);
        }
      }
    }
  }

  lemma {:induction false} ItemImages(mem: Memory, types: Types, e: TypeId, bytes: seq<Byte>, count: nat, depth: nat)
    returns (items: seq<Tree>)
    requires TypesOk(types) && e < |types| && |bytes| == count * types[e].size
    requires DecodeItems(mem, types, e, bytes, count, depth).Some?
    ensures |items| == count
    ensures forall i :: 0 <= i < count ==> Holds(mem, types, e, Item(types, e, bytes, count, i), items[i], depth)
    decreases depth, 2 * types[e].rank + 1, count
  {
    hide TypesOk, Decode, Holds;
    items := [];
    if count > 0 {
      var stride := types[e].size;
      StrideFits(count, stride);
      var init := bytes[..(count - 1) * stride];
      var before := ItemImages(mem, types, e, init, count - 1, depth);
      assert Item(types, e, bytes, count, count - 1) == bytes[(count - 1) * stride..count * stride];
      var last := Image(mem, types, e, bytes[(count - 1) * stride..count * stride], depth);
      items := before + [last];
      forall i | 0 <= i < count
        ensures Holds(mem, types, e, Item(types, e, bytes, count, i), items[i], depth)
      {
        if i < count - 1 {
          ItemOfInit(types, e, bytes, count, i);
          assert Holds(mem, types, e, Item(types, e, init, count - 1, i), before[i], depth);
        }
      }
    }
  }

  lemma {:induction false} FieldImages(mem: Memory, types: Types, fs: seq<Field>, bytes: seq<Byte>, depth: nat)
    returns (trees: seq<Tree>)
    requires TypesOk(types) && FieldsOk(types, fs, |bytes|)
    requires DecodeFields(mem, types, fs, bytes, depth).Some?
    ensures |trees| == |fs|
    ensures forall i :: 0 <= i < |fs| ==>
                          Holds(mem, types, fs[i].typ, FieldBytes(types, fs[i], bytes), trees[i], depth)
    decreases depth, 2 * MaxRank(types, fs) + 1, |fs|
  {
    hide TypesOk, Decode, Holds;
    trees := [];
    if fs != [] {
      var n := |fs| - 1;
      var before := FieldImages(mem, types, fs[..n], bytes, depth);
      var last := Image(mem, types, fs[n].typ, FieldBytes(types, fs[n], bytes), depth);
      trees := before + [last];
    }
  }

  lemma {:induction false} SliceImage(mem: Memory, types: Types, id: TypeId, bytes: seq<Byte>, depth: nat)
    returns (t: Tree)
    requires TypesOk(types) && id < |types| && |bytes| == types[id].size && IsSlice(types[id].kind)
    requires Decode(mem, types, id, bytes, depth).Some?
    ensures Holds(mem, types, id, bytes, t, depth)
    decreases depth, 2 * types[id].rank, 0
  {
    hide TypesOk, ToBytes, LittleEndian, Word64, Signed, InRange, SignedBytes, PointsTo, DecodeElements;
    hide DecodeFields, Cut, CutTarget, MaxRank, ValueSize, Decode;
    KindIsOk(types, id);
    SliceRank(types, id);
    ElemOfPtr(types, id);
    var ptr, e := types[id].kind.fields[0].typ, ElemType(types, id);
    SliceParts(mem, types, id, bytes, depth);
    WordBytesBack(bytes[..8]);
    SignedBytesBack(bytes[8..16]);
    SignedBytesBack(bytes[16..]);
    assert bytes == bytes[..8] + bytes[8..16] + bytes[16..];
    var base, len := Word64(bytes[..8]), Signed(LittleEndian(bytes[8..16]), 8);
    var cap := Signed(LittleEndian(bytes[16..]), 8);
    var first := TargetImage(mem, types, ptr, base, depth);
    FirstIsCut(types, e, first, depth);
    var rest := [];
    if len > 1 {
      rest := RestImages(mem, types, ptr, base, types[e].size, 1, len, depth);
    }
    t := SliceTree(base, len, cap, first, rest);
  }

  /** The parts of a slice that was parsed. */
  lemma SliceParts(mem: Memory, types: Types, id: TypeId, bytes: seq<Byte>, depth: nat)
    requires TypesOk(types) && id < |types| && |bytes| == types[id].size && IsSlice(types[id].kind)
    requires SliceShaped(types, types[id]) && FieldsOk(types, types[id].kind.fields, |bytes|)
    requires types[types[id].kind.fields[0].typ].size == 8
    requires Decode(mem, types, id, bytes, depth).Some?
    ensures |bytes| == 24
    ensures var ptr, length := types[id].kind.fields[0].typ, Signed(LittleEndian(bytes[8..16]), 8);
            var first := Decode(mem, types, ptr, bytes[..8], depth);
            && first.Some? && first.value.val.PtrVal?
            && (length > 1 ==>
                  && first.value.val.pointed.Some?
                  && DecodeElements(mem, types, ptr, first.value.val.addr,
                                    ValueSize(types, first.value.val.pointed.value), 1, length, depth).Some?)
  {
    hide TypesOk, LittleEndian, Word64, Signed, MaxRank, DecodeElements, DecodeFields, ValueSize;
    SliceFields(mem, types, id, bytes, depth);
  }

  /** Whatever is parsed without a panic is an image of something. */
  lemma {:induction false} Image(mem: Memory, types: Types, id: TypeId, bytes: seq<Byte>, depth: nat) returns (t: Tree)
    requires TypesOk(types) && id < |types| && |bytes| == types[id].size
    requires Decode(mem, types, id, bytes, depth).Some?
    ensures Holds(mem, types, id, bytes, t, depth)
    decreases depth, 2 * types[id].rank, 1
  {
    hide TypesOk, ToBytes, DecodeFields, DecodeItems, DecodeElements, DecodeString, LittleEndian, PointsTo;
    hide Word64, Signed, SignedBytes, InRange, Item, FieldBytes;
    KindIsOk(types, id);
    match types[id].kind {
      case Ptr(e) =>
        WordBytesBack(bytes);
        var target := TargetImage(mem, types, id, Word64(bytes), depth);
        t := PtrTree(Word64(bytes), target);
      case Typedef(e) => t := Image(mem, types, e, bytes, depth);
      case Array(e, count) =>
        t := if count == -1 then RawTree(bytes) else ArrayTree([]);
        if count >= 0 {
          var items := ItemImages(mem, types, e, bytes, count, depth);
          t := ArrayTree(items);
        }
      case Struct(_, fields) =>
        if IsString(types[id].kind) {
          t := StringImage(mem, types, id, bytes, depth);
        } else if IsSlice(types[id].kind) {
          t := SliceImage(mem, types, id, bytes, depth);
        } else {
          t := StructTree([]);
          if depth > 0 {
            var trees := FieldImages(mem, types, fields, bytes, depth - 1);
            t := StructTree(trees);
          }
        }
      case _ => t := PlainImage(mem, types, id, bytes, depth);
    }
  }

  /** Main result: the parser panics if and only if memory holds nothing of the type as far as it looks, and what it
      yields otherwise is what memory holds. */
  lemma ParsedExactly(mem: Memory, types: Types, id: TypeId, bytes: seq<Byte>, depth: nat)
    requires TypesOk(types) && id < |types| && |bytes| == types[id].size
    ensures Decode(mem, types, id, bytes, depth).None? <==> !exists t :: Holds(mem, types, id, bytes, t, depth)
    ensures forall t :: Holds(mem, types, id, bytes, t, depth) ==>
                          Decode(mem, types, id, bytes, depth) == Some(Cut(types, id, t, depth))
  {
    hide TypesOk, Decode, Holds, Cut;
    forall t | Holds(mem, types, id, bytes, t, depth)
      ensures Decode(mem, types, id, bytes, depth) == Some(Cut(types, id, t, depth))
    {
      Faithful(mem, types, id, bytes, t, depth);
    }
    if Decode(mem, types, id, bytes, depth).Some? {
      var t := Image(mem, types, id, bytes, depth);
    }
  }

  // ----- a heap with a cycle

  /** A struct whose only field points to a struct of the same type. */
  const NODE: Types := [TypeInfo(8, 0, Struct("main.node", [Field("next", 1, 0)])), TypeInfo(8, 1, Ptr(0))]

  /** The node that points to itself, as far as it is looked at. */
  function Node(addr: Addr, depth: nat): Tree {
    StructTree(if depth == 0 then [] else [PtrTree(addr, Some(Node(addr, depth - 1)))])
  }

  /** However deep one looks there is an image, and parsing ends with it. */
  lemma {:induction false} CycleIsParsed(mem: Memory, addr: Addr, depth: nat)
    requires addr != 0 && Mapped(mem, addr, 8) && Bytes(mem, addr, 8) == ToBytes(addr, 8)
    ensures TypesOk(NODE) && HoldsAt(mem, NODE, 0, addr, Node(addr, depth), depth)
    ensures Decode(mem, NODE, 0, ToBytes(addr, 8), depth) == Some(Cut(NODE, 0, Node(addr, depth), depth))
  {
    NodeTypes();
    var bytes := ToBytes(addr, 8);
    if depth > 0 {
      CycleIsParsed(mem, addr, depth - 1);
      var field := NODE[0].kind.fields[0];
      assert FieldBytes(NODE, field, bytes) == bytes;
      assert PointsTo(mem, NODE, 0, addr, Some(Node(addr, depth - 1)), depth - 1);
      assert Holds(mem, NODE, 1, bytes, PtrTree(addr, Some(Node(addr, depth - 1))), depth - 1);
    }
    Faithful(mem, NODE, 0, bytes, Node(addr, depth), depth);
  }

  lemma NodeTypes()
    ensures TypesOk(NODE) && IsOrdinary(NODE[0].kind)
  {
    assert "main.node"[..2] == "ma";
    assert KindOk(NODE, 0) && KindOk(NODE, 1);
  }

  // ----- two fields of one name

  const TWO: Types := [TypeInfo(2, 0, Struct("main.two", [Field("_", 1, 0), Field("_", 1, 1)])), TypeInfo(1, 0, Uint)]

  /** Two blank fields of different contents: the struct has an image, and the second field counts. */
  lemma LastFieldCounts(mem: Memory, a: Byte, b: Byte, depth: nat)
    requires depth > 0
    ensures TypesOk(TWO) && Holds(mem, TWO, 0, [a, b], StructTree([UintTree(a), UintTree(b)]), depth)
    ensures Decode(mem, TWO, 0, [a, b], depth) == Some(Value(0, StructVal(map["_" := Value(1, UintVal(b))])))
  {
    hide Cut, Decode, Names, Last, CutFields;
    TwoTypes();
    var t := StructTree([UintTree(a), UintTree(b)]);
    TwoHold(mem, a, b, depth);
    Faithful(mem, TWO, 0, [a, b], t, depth);
    StructUnfolds(mem, TWO, 0, [a, b], t, depth);
    TwoCut(a, b, depth - 1);
  }

  lemma TwoHold(mem: Memory, a: Byte, b: Byte, depth: nat)
    requires depth > 0 && TypesOk(TWO)
    ensures Holds(mem, TWO, 0, [a, b], StructTree([UintTree(a), UintTree(b)]), depth)
  {
    hide TypesOk;
    TwoTypes();
    var fs := TWO[0].kind.fields;
    Widths();
    OneByte(a);
    OneByte(b);
    assert FieldBytes(TWO, fs[0], [a, b]) == [a] && FieldBytes(TWO, fs[1], [a, b]) == [b];
    assert Holds(mem, TWO, 1, [a], UintTree(a), depth - 1) && Holds(mem, TWO, 1, [b], UintTree(b), depth - 1);
  }

  lemma TwoCut(a: Byte, b: Byte, depth: nat)
    requires TypesOk(TWO)
    ensures CutFields(TWO, TWO[0].kind.fields, [UintTree(a), UintTree(b)], depth) == map["_" := Value(1, UintVal(b))]
  {
    hide TypesOk;
    var fs := TWO[0].kind.fields;
    assert Names(fs) == {"_"} by { assert fs[0].name in Names(fs); }
    assert Last(fs, "_") == 1;
    assert Cut(TWO, 1, UintTree(b), depth) == Value(1, UintVal(b));
  }

  lemma OneByte(a: Byte)
    ensures ToBytes(a, 1) == [a]
  {
    assert ToBytes(a / 256, 0) == [];
  }

  lemma TwoTypes()
    ensures TypesOk(TWO) && IsOrdinary(TWO[0].kind)
  {
    assert "main.two"[..2] == "ma";
    assert KindOk(TWO, 0) && KindOk(TWO, 1);
  }
}
