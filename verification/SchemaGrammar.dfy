/**
 A message as a grammar: entries of a key and a value, the cut of a string of bytes into them,
 and the message such entries mean. Nothing here reads; SchemaMeaning.dfy proves that the
 decoder does what this says.
 */
module SchemaGrammar {
  import opened Prelude
  import opened Wire
  import opened WireGrammar
  import opened Schema

  /** A value as a field of this kind has it; the wire type of its key plays no part. */
  ghost predicate IsFieldValue(kind: Kind, b: seq<byte>, v: Value) {
    match kind
    case Number(scalar) => IsVarint(b) && v == Num(Narrow(scalar, Denoted(b)))
    case Fixed32 => |b| == 4 && v == Str(b)
    case _ => exists content :: IsRecord(b, content) && Holds(kind, content, v)
  }

  /** What the content of a record is to the field: text, bytes, nil if there are none, or a message. */
  ghost predicate Holds(kind: Kind, content: seq<byte>, v: Value) {
    match kind
    case Text => v == Str(content)
    case TextList => v == Str(content)
    case Blob => v == if content == [] then Absent else Str(content)
    case Child(schema) => v.Sub? && Decode(schema, content) == Some(v.message)
    case ChildList(schema) => v.Sub? && Decode(schema, content) == Some(v.message)
    case _ => false
  }

  /** k is the last field of the number. */
  predicate FindsLast(fields: seq<Field>, number: nat, k: nat) {
    k < |fields| && fields[k].number == number && forall j | k < j < |fields| :: fields[j].number != number
  }

  /** A key of n bytes with a value for the last field of its number; or a whole field of a number the schema lacks. */
  ghost predicate EntryAt(schema: Schema, b: seq<byte>, n: nat, e: Entry) {
    && n <= |b| && IsVarint(b[..n])
    && var number := Denoted(b[..n]) / 8;
       match e
       case Known(k, v) =>
         k < |schema.fields| && FindsLast(schema.fields, number, k)
         && IsFieldValue(schema.fields[k].kind, b[n..], v)
       case Stray(raw) =>
         && raw == b && (forall j | 0 <= j < |schema.fields| :: schema.fields[j].number != number)
         && IsValue(b[n..], Denoted(b[..n]) % 8)
  }

  ghost predicate IsEntry(schema: Schema, b: seq<byte>, e: Entry) {
    exists n: nat :: EntryAt(schema, b, n, e)
  }

  /** b is cut into these entries, without a rest. */
  ghost predicate IsCut(schema: Schema, b: seq<byte>, es: seq<Entry>)
    decreases |es|
  {
    if es == [] then b == []
    else exists n: nat :: 1 <= n <= |b| && IsEntry(schema, b[..n], es[0]) && IsCut(schema, b[n..], es[1..])
  }

  /** IsCut, sealed. */
  ghost predicate Cut(schema: Schema, b: seq<byte>, es: seq<Entry>) {
    forall question: nat {:trigger Asked(question)} | Asked(question) :: IsCut(schema, b, es)
  }

  /** The values the entries give field k, in order. */
  function Given(es: seq<Entry>, k: nat): seq<Value> {
    if es == [] then []
    else
      var last := es[|es| - 1];
      Given(es[..|es| - 1], k) + if last.Known? && last.index == k then [last.value] else []
  }

  /** The bytes of the entries the schema lacks, in order. */
  function Left(es: seq<Entry>): seq<byte> {
    if es == [] then []
    else
      var last := es[|es| - 1];
      Left(es[..|es| - 1]) + if last.Stray? then last.raw else []
  }

  predicate IsList(kind: Kind) { kind.TextList? || kind.ChildList? }

  /** A list holds all values given, in order; any other field the last one, or its zero. */
  function Meant(kind: Kind, values: seq<Value>): Value {
    if IsList(kind) then Many(values) else if values == [] then ZeroValue(kind) else values[|values| - 1]
  }

  /** The message the entries mean. */
  ghost predicate Means(schema: Schema, es: seq<Entry>, m: Message) {
    && |m.fields| == |schema.fields| && m.unknown == Left(es)
    && forall k | 0 <= k < |m.fields| :: m.fields[k] == Meant(schema.fields[k].kind, Given(es, k))
  }
}
