/**
 The schema-driven codec of internal/wmpf/messages.go. The source drives it by
 reflection over `pb:"number,kind"` struct tags; here a `Schema` value plays the part of
 the struct type and a `Message` that of the struct.
 */
module Schema {
  import opened Prelude
  import opened Wire

  /** Go types that carry kind "varint". */
  datatype Scalar = Bool | Uint32 | Uint64 | Int32

  /** The tag kinds of the source, with the Go type of the field they are used on. */
  datatype Kind =
    | Number(scalar: Scalar)  // "varint"
    | Fixed32                 // "fixed32" on float32, kept as its four little-endian bytes
    | Text                    // "string" on string
    | TextList                // "string" on []string
    | Blob                    // "bytes" on []byte
    | Child(schema: Schema)   // "msg" on a pointer
    | ChildList(schema: Schema)  // "msg" on a slice of structs

  datatype Field = Field(number: nat, kind: Kind)

  datatype Schema = Schema(fields: seq<Field>)

  /** Field values. `Absent` is the nil slice of a Blob and the nil pointer of a Child. */
  datatype Value =
    | Num(n: int)
    | Str(bytes: seq<byte>)
    | Absent
    | Sub(message: Message)
    | Many(items: seq<Value>)

  datatype Message = Message(fields: seq<Value>, unknown: seq<byte>)

  function ZeroValue(kind: Kind): Value {
    match kind
    case Number(_) => Num(0)
    case Fixed32 => Str([0, 0, 0, 0])
    case Text => Str([])
    case Blob => Absent
    case Child(_) => Absent
    case TextList => Many([])
    case ChildList(_) => Many([])
  }

  function Zero(schema: Schema): (m: Message)
    ensures |m.fields| == |schema.fields|
  {
    Message(seq(|schema.fields|, i requires 0 <= i < |schema.fields| => ZeroValue(schema.fields[i].kind)), [])
  }

  /** The tags map: the last field with a number wins. */
  function FindTag(fields: seq<Field>, number: nat): (k: Option<nat>)
    ensures k.Some? ==> k.value < |fields| && fields[k.value].number == number
    ensures k.None? ==> forall i | 0 <= i < |fields| :: fields[i].number != number
  {
    if fields == [] then None
    else
      var last := |fields| - 1;
      if fields[last].number == number then Some(last) else FindTag(fields[..last], number)
  }

  method LookupTag(fields: seq<Field>, number: nat) returns (k: Option<nat>)
    ensures k == FindTag(fields, number)
  {
    k := None;
    for i := 0 to |fields|
      invariant k == FindTag(fields[..i], number)
    {
      assert fields[..i + 1][..i] == fields[..i];
      if fields[i].number == number {
        k := Some(i);
      }
    }
    assert fields[..|fields|] == fields;
  }

  // ---------------------------------------------------------------- decoding

  /** SetBool, SetInt and SetUint: what a 64-bit varint becomes in the field's Go type. */
  function Narrow(scalar: Scalar, x: nat): int {
    match scalar
    case Bool => if x == 0 then 0 else 1
    case Uint32 => x % TWO_32
    case Uint64 => x
    case Int32 => var low := x % TWO_32; if low < TWO_31 then low else low - TWO_32
  }

  /** Reads one value of a known field; the wire type of its key plays no part. */
  function ReadValue(kind: Kind, d: seq<byte>, i: nat): (r: Read<Value>)
    requires i <= |d|
    ensures r.Got? ==> 1 <= r.used <= |d| - i
    decreases |d| - i, 0
  {
    match kind
    case Number(scalar) =>
      (match ReadVar(d, i) case Fail => Fail case Got(x, u) => Got(Num(Narrow(scalar, x)), u))
    case Fixed32 =>
      if i + 4 > |d| then Fail else Got(Str(d[i..i + 4]), 4)
    case _ =>
      match ReadBytes(d, i)
      case Fail => Fail
      case Got(b, u) =>
        match FromRecord(kind, b)
        case None => Fail
        case Some(v) => Got(v, u)
  }

  /** The value of a length-delimited field whose record holds b. */
  function FromRecord(kind: Kind, b: seq<byte>): Option<Value>
    decreases |b|, 5
  {
    match kind
    case Text => Some(Str(b))
    case TextList => Some(Str(b))
    case Child(schema) =>
      (match Decode(schema, b) case None => None case Some(m) => Some(Sub(m)))
    case ChildList(schema) =>
      (match Decode(schema, b) case None => None case Some(m) => Some(Sub(m)))
    case _ =>  // Blob: append([]byte(nil), b...) is nil when b is empty
      Some(if b == [] then Absent else Str(b))
  }

  /** What one turn of the decoding loop finds: a value for a known field, or a field the schema lacks. */
  datatype Entry = Known(index: nat, value: Value) | Stray(raw: seq<byte>)

  function ReadEntry(schema: Schema, d: seq<byte>, i: nat): (r: Read<Entry>)
    requires i <= |d|
    ensures r.Got? ==> 1 <= r.used <= |d| - i
    ensures r.Got? && r.value.Known? ==> r.value.index < |schema.fields|
    decreases |d| - i, 0
  {
    match ReadVar(d, i)
    case Fail => Fail
    case Got(key, u) =>
      match FindTag(schema.fields, key / 8)
      case None =>
        (match RawField(d, i) case Fail => Fail case Got(_, n) => Got(Stray(d[i..i + n]), n))
      case Some(k) =>
        match ReadValue(schema.fields[k].kind, d, i + u)
        case Fail => Fail
        case Got(x, v) => Got(Known(k, x), u + v)
  }

  /** The entries of d from cursor i to its end. */
  function Parse(schema: Schema, d: seq<byte>, i: nat): (r: Option<seq<Entry>>)
    requires i <= |d|
    decreases |d| - i, 1
  {
    if i == |d| then Some([])
    else
      match ReadEntry(schema, d, i)
      case Fail => None
      case Got(e, u) =>
        match Parse(schema, d, i + u)
        case None => None
        case Some(es) => Some([e] + es)
  }

  predicate InSchema(schema: Schema, es: seq<Entry>) {
    forall k | 0 <= k < |es| :: es[k].Known? ==> es[k].index < |schema.fields|
  }

  lemma {:induction false} ParseInSchema(schema: Schema, d: seq<byte>, i: nat)
    requires i <= |d|
    ensures var r := Parse(schema, d, i); r.Some? ==> InSchema(schema, r.value)
    decreases |d| - i, 2
  {
    if i < |d| {
      var r := ReadEntry(schema, d, i);
      if r.Got? {
        ParseInSchema(schema, d, i + r.used);
      }
    }
  }

  /** A repeated field grows, any other takes the new value: the last one wins. */
  function Merge(kind: Kind, held: Value, v: Value): Value {
    match kind
    case TextList => Appended(held, v)
    case ChildList(_) => Appended(held, v)
    case _ => v
  }

  function Appended(list: Value, item: Value): Value {
    if list.Many? then Many(list.items + [item]) else Many([item])
  }

  function Apply(schema: Schema, m: Message, e: Entry): (m': Message)
    requires |m.fields| == |schema.fields| && (e.Known? ==> e.index < |schema.fields|)
    ensures |m'.fields| == |schema.fields|
  {
    match e
    case Known(k, v) => m.(fields := m.fields[k := Merge(schema.fields[k].kind, m.fields[k], v)])
    case Stray(raw) => m.(unknown := m.unknown + raw)
  }

  function ApplyAll(schema: Schema, m: Message, es: seq<Entry>): (m': Message)
    requires |m.fields| == |schema.fields| && InSchema(schema, es)
    ensures |m'.fields| == |schema.fields|
    decreases |es|
  {
    if es == [] then m else ApplyAll(schema, Apply(schema, m, es[0]), es[1..])
  }

  /** unmarshalValue: all of d, into a message that may already hold fields. */
  function DecodeInto(schema: Schema, m: Message, d: seq<byte>, i: nat): (r: Option<Message>)
    requires |m.fields| == |schema.fields| && i <= |d|
    ensures r.Some? ==> |r.value.fields| == |schema.fields|
    decreases |d| - i, 3
  {
    match Parse(schema, d, i)
    case None => None
    case Some(es) =>
      ParseInSchema(schema, d, i);
      Some(ApplyAll(schema, m, es))
  }

  function Decode(schema: Schema, d: seq<byte>): (r: Option<Message>)
    ensures r.Some? ==> |r.value.fields| == |schema.fields|
    decreases |d|, 4
  {
    DecodeInto(schema, Zero(schema), d, 0)
  }

  /** The entries from i on are p, or there are none; sealed, since a turn of the loop looks only one entry ahead. */
  ghost predicate Parses(schema: Schema, d: seq<byte>, i: nat, p: Option<seq<Entry>>)
    requires i <= |d|
  {
    forall question: nat {:trigger Asked(question)} | Asked(question) :: Parse(schema, d, i) == p
  }

  /** The entry at i, or none; sealed too. */
  ghost predicate Finds(schema: Schema, d: seq<byte>, i: nat, r: Read<Entry>)
    requires i < |d|
  {
    forall question: nat {:trigger Asked(question)} | Asked(question) :: ReadEntry(schema, d, i) == r
  }

  /** What decodes d from i on into g decodes to whole; sealed, since each turn of a decoder looks one field ahead. */
  ghost predicate Remains(schema: Schema, g: Message, d: seq<byte>, i: nat, whole: Option<Message>) {
    && |g.fields| == |schema.fields| && i <= |d|
    && forall question: nat {:trigger Asked(question)} | Asked(question) :: DecodeInto(schema, g, d, i) == whole
  }

  method FromRecordAt(kind: Kind, b: seq<byte>) returns (r: Option<Value>)
    ensures r == FromRecord(kind, b)
    decreases |b|, 2
  {
    match kind
    case Text => r := Some(Str(b));
    case TextList => r := Some(Str(b));
    case Child(schema) =>
      var m := Unmarshal(schema, b);
      r := if m.None? then None else Some(Sub(m.value));
    case ChildList(schema) =>
      var m := Unmarshal(schema, b);
      r := if m.None? then None else Some(Sub(m.value));
    case _ => r := Some(if b == [] then Absent else Str(b));
  }

  method ReadValueAt(kind: Kind, d: seq<byte>, i: nat) returns (r: Read<Value>)
    requires i <= |d|
    ensures r == ReadValue(kind, d, i)
    decreases |d| - i, 0
  {
    if kind.Number? {
      var x := ReadVarAt(d, i);
      return if x.Fail? then Fail else Got(Num(Narrow(kind.scalar, x.value)), x.used);
    }
    if kind.Fixed32? {
      return if i + 4 > |d| then Fail else Got(Str(d[i..i + 4]), 4);
    }
    var b := ReadBytesAt(d, i);
    if b.Fail? {
      return Fail;
    }
    var v := FromRecordAt(kind, b.value);
    return if v.None? then Fail else Got(v.value, b.used);
  }

  lemma ApplyFirst(schema: Schema, m: Message, d: seq<byte>, i: nat, r: Read<Entry>)
    requires |m.fields| == |schema.fields| && i < |d| && r == ReadEntry(schema, d, i)
    ensures r.Fail? ==> DecodeInto(schema, m, d, i).None?
    ensures r.Got? ==> DecodeInto(schema, m, d, i) == DecodeInto(schema, Apply(schema, m, r.value), d, i + r.used)
  {
    if r.Got? {
      var rest := Parse(schema, d, i + r.used);
      if rest.Some? {
        assert ([r.value] + rest.value)[1..] == rest.value;
      }
    }
  }

  /** A turn of the loop fails with its key, */
  lemma KeyFails(schema: Schema, m: Message, d: seq<byte>, i: nat, whole: Option<Message>)
    requires i < |d| && ReadVar(d, i).Fail? && Remains(schema, m, d, i, whole)
    ensures whole.None?
  {
    assert Asked(0);
    ApplyFirst(schema, m, d, i, ReadEntry(schema, d, i));
  }

  /** or keeps a field the schema lacks, */
  lemma StrayKept(schema: Schema, m: Message, d: seq<byte>, i: nat, key: Read<nat>, next: Option<nat>, whole: Option<Message>)
    requires i < |d| && key == ReadVar(d, i) && key.Got? && FindTag(schema.fields, key.value / 8).None?
    requires next == Skip(d, i + key.used, key.value % 8) && Remains(schema, m, d, i, whole)
    ensures next.None? ==> whole.None?
    ensures next.Some? ==> Remains(schema, m.(unknown := m.unknown + d[i..next.value]), d, next.value, whole)
  {
    assert Asked(0);
    ApplyFirst(schema, m, d, i, ReadEntry(schema, d, i));
  }

  /** or reads the value of one it knows. */
  lemma KnownMerged(schema: Schema, m: Message, d: seq<byte>, i: nat, key: Read<nat>, k: nat, x: Read<Value>, whole: Option<Message>)
    requires i < |d| && key == ReadVar(d, i) && key.Got? && FindTag(schema.fields, key.value / 8) == Some(k)
    requires x == ReadValue(schema.fields[k].kind, d, i + key.used) && Remains(schema, m, d, i, whole)
    ensures x.Fail? ==> whole.None?
    ensures x.Got? ==>
              Remains(schema, m.(fields := m.fields[k := Merge(schema.fields[k].kind, m.fields[k], x.value)]), d,
                      i + key.used + x.used, whole)
  {
    assert Asked(0);
    ApplyFirst(schema, m, d, i, ReadEntry(schema, d, i));
  }

  lemma AllRemains(schema: Schema, d: seq<byte>)
    ensures Remains(schema, Zero(schema), d, 0, Decode(schema, d))
  {
  }

  lemma NoneRemains(schema: Schema, m: Message, d: seq<byte>, whole: Option<Message>)
    requires Remains(schema, m, d, |d|, whole)
    ensures whole == Some(m)
  {
    assert Asked(0);
    assert Parse(schema, d, |d|) == Some([]);
  }

  /** unmarshalValue on a fresh struct: a cursor over d, fields assigned as they are met. */
  method Unmarshal(schema: Schema, d: seq<byte>) returns (r: Option<Message>)
    ensures r == Decode(schema, d)
    decreases |d|, 1
  {
    var m, i := Zero(schema), 0;
    ghost var whole := Decode(schema, d);
    AllRemains(schema, d);
    while i < |d|
      invariant Remains(schema, m, d, i, whole)
      decreases |d| - i
    {
      var key := ReadVarAt(d, i);
      if key.Fail? {
        KeyFails(schema, m, d, i, whole);
        return None;
      }
      var k := LookupTag(schema.fields, key.value / 8);
      if k.None? {
        var next := SkipAt(d, i + key.used, key.value % 8);
        StrayKept(schema, m, d, i, key, next, whole);
        if next.None? {
          return None;
        }
        m, i := m.(unknown := m.unknown + d[i..next.value]), next.value;
      } else {
        var f := schema.fields[k.value];
        var x := ReadValueAt(f.kind, d, i + key.used);
        KnownMerged(schema, m, d, i, key, k.value, x, whole);
        if x.Fail? {
          return None;
        }
        m, i := m.(fields := m.fields[k.value := Merge(f.kind, m.fields[k.value], x.value)]), i + key.used + x.used;
      }
    }
    NoneRemains(schema, m, d, whole);
    return Some(m);
  }

  // ---------------------------------------------------------------- encoding

  predicate InRange(scalar: Scalar, n: int) {
    match scalar
    case Bool => 0 <= n <= 1
    case Uint32 => 0 <= n < TWO_32
    case Uint64 => 0 <= n < TWO_64
    case Int32 => -TWO_31 <= n < TWO_31
  }

  /** The values a struct field of this Go type can hold. */
  predicate Typed(kind: Kind, v: Value)
    decreases v, 0
  {
    match kind
    case Number(scalar) => v.Num? && InRange(scalar, v.n)
    case Fixed32 => v.Str? && |v.bytes| == 4
    case Text => v.Str?
    case Blob => v.Absent? || v.Str?
    case TextList => v.Many? && forall i | 0 <= i < |v.items| :: v.items[i].Str?
    case Child(schema) => v.Absent? || (v.Sub? && TypedMessage(schema, v.message))
    case ChildList(schema) =>
      v.Many? && forall i | 0 <= i < |v.items| :: v.items[i].Sub? && TypedMessage(schema, v.items[i].message)
  }

  predicate TypedMessage(schema: Schema, m: Message)
    decreases m, 1
  {
    && |m.fields| == |schema.fields|
    && forall i | 0 <= i < |m.fields| :: Typed(schema.fields[i].kind, m.fields[i])
  }

  /** The kind of one element of a repeated field; other kinds are their own element. */
  function Element(kind: Kind): Kind {
    match kind
    case TextList => Text
    case ChildList(schema) => Child(schema)
    case _ => kind
  }

  /** uint64(v.Int()): a negative int32 is sign-extended. */
  function Widen(n: int): nat
    requires -TWO_63 <= n
  {
    if n >= 0 then n else n + TWO_64
  }

  /** appendField for one value. */
  function AppendField(number: nat, kind: Kind, v: Value): seq<byte>
    requires Typed(kind, v) && !kind.TextList? && !kind.ChildList?
    decreases v, 2
  {
    match kind
    case Number(scalar) => UintField(number, Widen(v.n))
    case Fixed32 => Varint(number * 8 + 5) + v.bytes
    case Text => BytesField(number, v.bytes)
    case Blob => BytesField(number, if v.Str? then v.bytes else [])
    case Child(schema) => BytesField(number, if v.Sub? then Marshal(schema, v.message) else [])
  }

  function AppendItems(number: nat, kind: Kind, v: Value, n: nat): seq<byte>
    requires Typed(kind, v) && v.Many? && n <= |v.items|
    decreases v, 1, n
  {
    if n == 0 then []
    else AppendItems(number, kind, v, n - 1) + AppendField(number, Element(kind), v.items[n - 1])
  }

  /** What the encoder emits for one struct field: each element of a list, or a non-zero value. */
  function MarshalField(f: Field, v: Value): seq<byte>
    requires Typed(f.kind, v)
    decreases v, 3
  {
    if v.Many? then AppendItems(f.number, f.kind, v, |v.items|)
    else if v == ZeroValue(f.kind) then []
    else AppendField(f.number, f.kind, v)
  }

  function MarshalFields(schema: Schema, m: Message, n: nat): seq<byte>
    requires TypedMessage(schema, m) && n <= |m.fields|
    decreases m, 0, n
  {
    if n == 0 then []
    else MarshalFields(schema, m, n - 1) + MarshalField(schema.fields[n - 1], m.fields[n - 1])
  }

  function Marshal(schema: Schema, m: Message): seq<byte>
    requires TypedMessage(schema, m)
    decreases m, 1
  {
    MarshalFields(schema, m, |m.fields|) + m.unknown
  }

  /** appendField: writes one value behind what the buffer holds. */
  method AppendFieldTo(b: Buffer, number: nat, kind: Kind, v: Value)
    requires Typed(kind, v) && !kind.TextList? && !kind.ChildList?
    modifies b
    ensures b.data == old(b.data) + AppendField(number, kind, v)
    decreases v, 2
  {
    match kind
    case Number(_) => PutU(b, number, Widen(v.n));
    case Fixed32 =>
      PutVar(b, number * 8 + 5);
      b.Write(v.bytes);
    case Text => PutB(b, number, v.bytes);
    case Blob => PutB(b, number, if v.Str? then v.bytes else []);
    case Child(schema) =>
      var inner: seq<byte> := [];
      if v.Sub? {
        inner := MarshalMessage(schema, v.message);
      }
      PutB(b, number, inner);
  }

  lemma ItemsStep(before: seq<byte>, number: nat, kind: Kind, v: Value, j: nat)
    requires Typed(kind, v) && v.Many? && j < |v.items|
    ensures before + AppendItems(number, kind, v, j + 1)
            == before + AppendItems(number, kind, v, j) + AppendField(number, Element(kind), v.items[j])
  {
  }

  /** The inner loop of marshalValue, over the elements of a slice. */
  method AppendEach(b: Buffer, number: nat, kind: Kind, v: Value)
    requires Typed(kind, v) && v.Many?
    modifies b
    ensures b.data == old(b.data) + AppendItems(number, kind, v, |v.items|)
    decreases v, 3
  {
    for j := 0 to |v.items|
      invariant b.data == old(b.data) + AppendItems(number, kind, v, j)
    {
      ItemsStep(old(b.data), number, kind, v, j);
      AppendFieldTo(b, number, Element(kind), v.items[j]);
    }
  }

  /** marshalValue: fields in struct order, then the unknown bytes. */
  method MarshalMessage(schema: Schema, m: Message) returns (out: seq<byte>)
    requires TypedMessage(schema, m)
    ensures out == Marshal(schema, m)
    decreases m, 1
  {
    var b := new Buffer();
    for i := 0 to |m.fields|
      invariant fresh(b) && b.data == MarshalFields(schema, m, i)
    {
      var f, v := schema.fields[i], m.fields[i];
      if v.Many? {
        AppendEach(b, f.number, f.kind, v);
      } else if v != ZeroValue(f.kind) {
        AppendFieldTo(b, f.number, f.kind, v);
      }
    }
    b.Write(m.unknown);
    return b.data;
  }
}
