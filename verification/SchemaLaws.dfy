/**
 What the schema-driven codec promises: decoding a concatenation is decoding its parts in
 turn, a decoded message survives re-encoding, and unknown fields are kept byte for byte.
 */
module SchemaLaws {
  import opened Prelude
  import opened Wire
  import opened WireExact
  import opened Schema

  // ---------------------------------------------------------------- prefix locality

  lemma ReadValueFrame(kind: Kind, d: seq<byte>, i: nat, to: nat, e: seq<byte>, off: int)
    requires Same(d, i, to, e, off)
    requires ReadValue(kind, d, i).Got? && i + ReadValue(kind, d, i).used <= to
    ensures ReadValue(kind, e, i + off) == ReadValue(kind, d, i)
  {
    match kind
    case Number(_) => ReadVarFrame(d, i, to, e, off);
    case Fixed32 => assert d[i..i + 4] == e[i + off..i + off + 4];
    case _ => ReadBytesFrame(d, i, to, e, off);
  }

  /** An entry that can be read can be read wherever its bytes stand. */
  lemma ReadEntryFrame(schema: Schema, d: seq<byte>, i: nat, to: nat, e: seq<byte>, off: int)
    requires Same(d, i, to, e, off)
    requires ReadEntry(schema, d, i).Got? && i + ReadEntry(schema, d, i).used <= to
    ensures i + off <= |e| && ReadEntry(schema, e, i + off) == ReadEntry(schema, d, i)
  {
    var key := ReadVar(d, i);
    ReadVarFrame(d, i, to, e, off);
    if FindTag(schema.fields, key.value / 8).Some? {
      ReadValueFrame(schema.fields[FindTag(schema.fields, key.value / 8).value].kind, d, i + key.used, to, e, off);
    } else {
      StrayFrame(d, i, to, e, off);
    }
  }

  lemma StrayFrame(d: seq<byte>, i: nat, to: nat, e: seq<byte>, off: int)
    requires Same(d, i, to, e, off)
    requires RawField(d, i).Got? && i + RawField(d, i).used <= to
    ensures RawField(e, i + off) == RawField(d, i)
    ensures var n := RawField(d, i).used; d[i..i + n] == e[i + off..i + off + n]
  {
    RawFieldFrame(d, i, to, e, off);
    var n := RawField(d, i).used;
    assert d[i..i + n] == e[i + off..i + off + n];
  }

  /** r with one more entry in front. */
  ghost function Led(e: Entry, r: Option<seq<Entry>>): Option<seq<Entry>> {
    match r
    case None => None
    case Some(es) => Some([e] + es)
  }

  lemma ParsesWhole(schema: Schema, d: seq<byte>, i: nat)
    requires i <= |d|
    ensures Parses(schema, d, i, Parse(schema, d, i))
  {
  }

  lemma ParsesIs(schema: Schema, d: seq<byte>, i: nat, p: Option<seq<Entry>>)
    requires i <= |d| && Parses(schema, d, i, p)
    ensures Parse(schema, d, i) == p
  {
    assert Asked(0);
  }

  lemma ParsesEnd(schema: Schema, d: seq<byte>, p: Option<seq<Entry>>)
    ensures Parses(schema, d, |d|, p) <==> p == Some([])
  {
    if Parses(schema, d, |d|, p) {
      assert Asked(0);
    }
  }

  lemma ParsesFail(schema: Schema, d: seq<byte>, i: nat)
    requires i < |d| && Finds(schema, d, i, Fail)
    ensures Parses(schema, d, i, None)
  {
    assert Asked(0);
  }

  lemma ParsesLed(schema: Schema, d: seq<byte>, i: nat, r: Read<Entry>, rest: Option<seq<Entry>>)
    requires i < |d| && Finds(schema, d, i, r) && r.Got? && i + r.used <= |d| && Parses(schema, d, i + r.used, rest)
    ensures Parses(schema, d, i, Led(r.value, rest))
  {
    assert Asked(0);
  }

  /** The loop's next turn. */
  lemma ParsesTurn(schema: Schema, d: seq<byte>, i: nat, p: Option<seq<Entry>>) returns (r: Read<Entry>, rest: Option<seq<Entry>>)
    requires i < |d| && Parses(schema, d, i, p)
    ensures Finds(schema, d, i, r)
    ensures r.Fail? ==> p.None?
    ensures r.Got? ==> 1 <= r.used <= |d| - i && Parses(schema, d, i + r.used, rest) && p == Led(r.value, rest)
  {
    assert Asked(0);
    r := ReadEntry(schema, d, i);
    rest := if r.Got? then Parse(schema, d, i + r.used) else None;
  }

  /** Equal bytes give the same entry, or none, if they reach the end of both; and an entry found is found again. */
  lemma EntryTurn(schema: Schema, d: seq<byte>, i: nat, e: seq<byte>, j: nat, r: Read<Entry>)
    requires i < |d| && j < |e| && Same(d, i, |d|, e, j - i) && Finds(schema, d, i, r)
    requires |e| - j == |d| - i || r.Got?
    ensures Finds(schema, e, j, r)
  {
    assert Asked(0);
    if r.Got? {
      ReadEntryFrame(schema, d, i, |d|, e, j - i);
    } else if ReadEntry(schema, e, j).Got? {
      ReadEntryFrame(schema, e, j, |e|, d, i - j);
    }
  }

  /** The entries of es and then those of r. */
  ghost function Joined(es: seq<Entry>, r: Option<seq<Entry>>): Option<seq<Entry>> {
    match r
    case None => None
    case Some(t) => Some(es + t)
  }

  lemma LedJoined(e: Entry, es: seq<Entry>, r: Option<seq<Entry>>)
    ensures Led(e, Joined(es, r)) == Joined([e] + es, r)
    ensures Joined([], r) == r
  {
    if r.Some? {
      assert [e] + es + r.value == [e] + (es + r.value);
      assert [] + r.value == r.value;
    }
  }

  /** The entries of a are found at the head of any d that a is a prefix of. */
  lemma {:induction false} ParsePrefix(
    schema: Schema, a: seq<byte>, i: nat, d: seq<byte>, es: seq<Entry>, end: Option<seq<Entry>>)
    requires i <= |a| && Same(a, 0, |a|, d, 0)
    requires Parses(schema, a, i, Some(es)) && Parses(schema, d, |a|, end)
    ensures Parses(schema, d, i, Joined(es, end))
    decreases |a| - i
  {
    if i == |a| {
      ParsesEnd(schema, a, Some(es));
      LedJoined(Stray([]), [], end);
    } else {
      var r, rest := ParsesTurn(schema, a, i, Some(es));
      EntryTurn(schema, a, i, d, i, r);
      ParsePrefix(schema, a, i + r.used, d, rest.value, end);
      ParsesLed(schema, d, i, r, Joined(rest.value, end));
      LedJoined(r.value, rest.value, end);
    }
  }

  /** What precedes the cursor plays no part: b is a suffix of d. */
  lemma {:induction false} ParseSuffix(
    schema: Schema, b: seq<byte>, i: nat, d: seq<byte>, j: nat, p: Option<seq<Entry>>)
    requires i <= |b| && j <= |d| && |d| - j == |b| - i && Same(b, i, |b|, d, j - i)
    requires Parses(schema, b, i, p)
    ensures Parses(schema, d, j, p)
    decreases |b| - i
  {
    if i == |b| {
      ParsesEnd(schema, b, p);
      ParsesEnd(schema, d, p);
    } else {
      var r, rest := ParsesTurn(schema, b, i, p);
      EntryTurn(schema, b, i, d, j, r);
      if r.Got? {
        ParseSuffix(schema, b, i + r.used, d, j + r.used, rest);
        ParsesLed(schema, d, j, r, rest);
      } else {
        ParsesFail(schema, d, j);
      }
    }
  }

  /** The entries of a ++ b are those of a and then those of b. */
  lemma ParseConcat(schema: Schema, a: seq<byte>, b: seq<byte>)
    requires Parse(schema, a, 0).Some?
    ensures Parse(schema, b, 0).None? ==> Parse(schema, a + b, 0).None?
    ensures Parse(schema, b, 0).Some? ==>
              Parse(schema, a + b, 0) == Some(Parse(schema, a, 0).value + Parse(schema, b, 0).value)
  {
    var es, end := Parse(schema, a, 0).value, Parse(schema, b, 0);
    ParsesWhole(schema, a, 0);
    ParsesWhole(schema, b, 0);
    ParseSuffix(schema, b, 0, a + b, |a|, end);
    ParsePrefix(schema, a, 0, a + b, es, end);
    ParsesIs(schema, a + b, 0, Joined(es, end));
  }

  lemma {:induction false} ApplyConcat(schema: Schema, m: Message, xs: seq<Entry>, ys: seq<Entry>)
    requires |m.fields| == |schema.fields| && InSchema(schema, xs) && InSchema(schema, ys)
    ensures InSchema(schema, xs + ys)
    ensures ApplyAll(schema, m, xs + ys) == ApplyAll(schema, ApplyAll(schema, m, xs), ys)
    decreases |xs|
  {
    if xs == [] {
      assert xs + ys == ys;
    } else {
      assert (xs + ys)[1..] == xs[1..] + ys;
      ApplyConcat(schema, Apply(schema, m, xs[0]), xs[1..], ys);
    }
  }

  /** Decoding a ++ b is decoding a and then applying the fields of b. */
  lemma DecodeConcat(schema: Schema, m: Message, a: seq<byte>, b: seq<byte>)
    requires |m.fields| == |schema.fields|
    requires DecodeInto(schema, m, a, 0).Some?
    ensures DecodeInto(schema, m, a + b, 0) == DecodeInto(schema, DecodeInto(schema, m, a, 0).value, b, 0)
  {
    ParseConcat(schema, a, b);
    if Parse(schema, b, 0).Some? {
      ParseInSchema(schema, a, 0);
      ParseInSchema(schema, b, 0);
      ApplyConcat(schema, m, Parse(schema, a, 0).value, Parse(schema, b, 0).value);
    }
  }

  // ---------------------------------------------------------------- unknown fields

  /** The raw bytes of the stray entries, in order. */
  function Strays(es: seq<Entry>): seq<byte> {
    if es == [] then []
    else (if es[0].Stray? then es[0].raw else []) + Strays(es[1..])
  }

  /** The raw bytes of d's fields whose number the schema lacks, in order. */
  function UnknownOf(schema: Schema, d: seq<byte>): seq<byte> {
    match Parse(schema, d, 0)
    case None => []
    case Some(es) => Strays(es)
  }

  predicate AllStray(es: seq<Entry>) {
    forall k | 0 <= k < |es| :: es[k].Stray?
  }

  /** u consists of whole fields the schema lacks. */
  predicate OnlyUnknown(schema: Schema, u: seq<byte>) {
    Parse(schema, u, 0).Some? && AllStray(Parse(schema, u, 0).value)
  }

  lemma {:induction false} UnknownCollected(schema: Schema, m: Message, es: seq<Entry>)
    requires |m.fields| == |schema.fields| && InSchema(schema, es)
    ensures ApplyAll(schema, m, es).unknown == m.unknown + Strays(es)
    decreases |es|
  {
    if es == [] {
      assert m.unknown + [] == m.unknown;
    } else {
      var m' := Apply(schema, m, es[0]);
      UnknownCollected(schema, m', es[1..]);
      var raw := if es[0].Stray? then es[0].raw else [];
      assert m'.unknown == m.unknown + raw;
      assert m.unknown + raw + Strays(es[1..]) == m.unknown + (raw + Strays(es[1..]));
    }
  }

  lemma {:induction false} ApplyStrays(schema: Schema, m: Message, es: seq<Entry>)
    requires |m.fields| == |schema.fields| && AllStray(es)
    ensures ApplyAll(schema, m, es) == m.(unknown := m.unknown + Strays(es))
    decreases |es|
  {
    if es == [] {
      assert m.unknown + [] == m.unknown;
    } else {
      ApplyStrays(schema, Apply(schema, m, es[0]), es[1..]);
      assert m.unknown + es[0].raw + Strays(es[1..]) == m.unknown + Strays(es);
    }
  }

  /** The strays of a run of unknown fields are the run itself. */
  lemma {:induction false} StraysPartition(schema: Schema, u: seq<byte>, i: nat, es: seq<Entry>)
    requires i <= |u| && Parse(schema, u, i) == Some(es) && AllStray(es)
    ensures Strays(es) == u[i..]
    decreases |u| - i
  {
    if i == |u| {
      assert u[i..] == [];
    } else {
      var n := StrayTurn(schema, u, i, es);
      StraysPartition(schema, u, i + n, es[1..]);
      StraysStep(u, i, n, es);
    }
  }

  lemma StraysStep(u: seq<byte>, i: nat, n: nat, es: seq<Entry>)
    requires i + n <= |u| && es != [] && es[0] == Stray(u[i..i + n])
    requires Strays(es[1..]) == u[i + n..]
    ensures Strays(es) == u[i..]
  {
    assert u[i..i + n] + u[i + n..] == u[i..];
  }

  lemma StrayTurn(schema: Schema, u: seq<byte>, i: nat, es: seq<Entry>) returns (n: nat)
    requires i < |u| && Parse(schema, u, i) == Some(es) && AllStray(es)
    ensures 1 <= n <= |u| - i && es != []
    ensures es[0] == Stray(u[i..i + n]) && Parse(schema, u, i + n) == Some(es[1..])
  {
    var r := ReadEntry(schema, u, i);
    n := r.used;
    var rest := Parse(schema, u, i + n).value;
    assert es == [r.value] + rest;
    assert es[0] == r.value && es[1..] == rest;
  }

  // ---------------------------------------------------------------- what decoding produces

  /** No field holds a value that decoding cannot produce: an allocated but empty byte slice, or stray unknown bytes. */
  predicate Clean(kind: Kind, v: Value)
    requires Typed(kind, v)
    decreases v, 0
  {
    match kind
    case Blob => v != Str([])
    case Child(schema) => v.Sub? ==> CleanMessage(schema, v.message)
    case ChildList(schema) => forall i | 0 <= i < |v.items| :: CleanMessage(schema, v.items[i].message)
    case _ => true
  }

  predicate CleanMessage(schema: Schema, m: Message)
    requires TypedMessage(schema, m)
    decreases m, 1
  {
    && OnlyUnknown(schema, m.unknown)
    && forall i | 0 <= i < |m.fields| :: Clean(schema.fields[i].kind, m.fields[i])
  }

  lemma ZeroCanonical(schema: Schema)
    ensures CanonicalMessage(schema, Zero(schema))
  {
    assert Parse(schema, [], 0) == Some([]);
  }

  predicate CanonicalMessage(schema: Schema, m: Message) {
    TypedMessage(schema, m) && CleanMessage(schema, m)
  }

  predicate Canonical(kind: Kind, v: Value) {
    Typed(kind, v) && Clean(kind, v)
  }

  /** What ReadEntry may find: a canonical value (a present child for "msg"), or whole unknown fields. */
  predicate GoodEntry(schema: Schema, e: Entry) {
    match e
    case Known(k, v) =>
      k < |schema.fields| && Canonical(Element(schema.fields[k].kind), v) && (Element(schema.fields[k].kind).Child? ==> v.Sub?)
    case Stray(raw) => OnlyUnknown(schema, raw)
  }

  predicate AllGood(schema: Schema, es: seq<Entry>) {
    forall k | 0 <= k < |es| :: GoodEntry(schema, es[k])
  }

  lemma {:induction false} FromRecordCanonical(kind: Kind, b: seq<byte>)
    requires !kind.Number? && !kind.Fixed32? && FromRecord(kind, b).Some?
    ensures Canonical(Element(kind), FromRecord(kind, b).value)
    ensures Element(kind).Child? ==> FromRecord(kind, b).value.Sub?
    decreases |b|, 3
  {
    match kind
    case Child(schema) => DecodeCanonical(schema, b);
    case ChildList(schema) => DecodeCanonical(schema, b);
    case _ =>
  }

  lemma StrayAlone(schema: Schema, raw: seq<byte>, r: Read<Entry>)
    requires raw != [] && ReadEntry(schema, raw, 0) == r == Got(Stray(raw), |raw|)
    ensures Parse(schema, raw, 0) == Some([Stray(raw)])
  {
    assert Parse(schema, raw, |raw|) == Some([]);
    assert [Stray(raw)] + [] == [Stray(raw)];
  }

  lemma {:induction false} ReadEntryGood(schema: Schema, d: seq<byte>, i: nat)
    requires i < |d| && ReadEntry(schema, d, i).Got?
    ensures GoodEntry(schema, ReadEntry(schema, d, i).value)
    decreases |d| - i, 0
  {
    var key, r := ReadVar(d, i), ReadEntry(schema, d, i);
    var at := i + key.used;
    match r.value
    case Known(k, v) =>
      var kind := schema.fields[k].kind;
      if kind.Number? {
        ReadVarIsUint64(d, at);
      } else if !kind.Fixed32? {
        FromRecordCanonical(kind, ReadBytes(d, at).value);
      }
    case Stray(raw) =>
      ReadEntryFrame(schema, d, i, i + r.used, raw, 0 - i);
      StrayAlone(schema, raw, r);
  }

  lemma {:induction false} ParseGood(schema: Schema, d: seq<byte>, i: nat)
    requires i <= |d| && Parse(schema, d, i).Some?
    ensures AllGood(schema, Parse(schema, d, i).value)
    decreases |d| - i, 1
  {
    if i < |d| {
      assert ReadEntry(schema, d, i).Got?;
      ReadEntryGood(schema, d, i);
      ParseGood(schema, d, i + ReadEntry(schema, d, i).used);
    }
  }

  lemma OnlyUnknownConcat(schema: Schema, a: seq<byte>, b: seq<byte>)
    requires OnlyUnknown(schema, a) && OnlyUnknown(schema, b)
    ensures OnlyUnknown(schema, a + b)
  {
    ParseConcat(schema, a, b);
  }

  lemma ApplyCanonical(schema: Schema, m: Message, e: Entry)
    requires CanonicalMessage(schema, m) && GoodEntry(schema, e)
    ensures CanonicalMessage(schema, Apply(schema, m, e))
  {
    match e
    case Known(k, v) =>
      var kind := schema.fields[k].kind;
      assert Canonical(kind, m.fields[k]);
      assert Canonical(kind, Merge(kind, m.fields[k], v));
    case Stray(raw) => OnlyUnknownConcat(schema, m.unknown, raw);
  }

  lemma {:induction false} ApplyAllCanonical(schema: Schema, m: Message, es: seq<Entry>)
    requires CanonicalMessage(schema, m) && AllGood(schema, es)
    ensures CanonicalMessage(schema, ApplyAll(schema, m, es))
    decreases |es|
  {
    if es != [] {
      ApplyCanonical(schema, m, es[0]);
      ApplyAllCanonical(schema, Apply(schema, m, es[0]), es[1..]);
    }
  }

  /** Whatever the input, a decoded message is canonical, at every depth. */
  lemma {:induction false} DecodeCanonical(schema: Schema, d: seq<byte>)
    requires Decode(schema, d).Some?
    ensures CanonicalMessage(schema, Decode(schema, d).value)
    decreases |d|, 2
  {
    ParseGood(schema, d, 0);
    ParseInSchema(schema, d, 0);
    ZeroCanonical(schema);
    ApplyAllCanonical(schema, Zero(schema), Parse(schema, d, 0).value);
  }

  // ---------------------------------------------------------------- round trip

  /** Field numbers are distinct and within the 29 bits a key leaves them, at every depth. */
  predicate WellFormed(schema: Schema)
    decreases schema
  {
    && (forall i | 0 <= i < |schema.fields| :: 1 <= schema.fields[i].number < 0x2000_0000)
    && (forall i, j | 0 <= i < j < |schema.fields| :: schema.fields[i].number != schema.fields[j].number)
    && (forall i | 0 <= i < |schema.fields| ::
          match schema.fields[i].kind
          case Child(inner) => WellFormed(inner)
          case ChildList(inner) => WellFormed(inner)
          case _ => true)
  }

  lemma {:induction false} FindOwnTag(fields: seq<Field>, k: nat)
    requires k < |fields|
    requires forall i, j | 0 <= i < j < |fields| :: fields[i].number != fields[j].number
    ensures FindTag(fields, fields[k].number) == Some(k)
    decreases |fields|
  {
    var last := |fields| - 1;
    if k < last {
      FindOwnTag(fields[..last], k);
    }
  }

  /** A Go slice is shorter than 2^63 bytes. */
  predicate Fits(d: seq<byte>) { |d| < TWO_63 }

  lemma ReadKey(d: seq<byte>, key: nat, rest: seq<byte>)
    requires key < TWO_64 && d == Varint(key) + rest
    ensures ReadVar(d, 0) == Got(key, |Varint(key)|)
  {
    ReadVarint(key, d, 0);
  }

  lemma NarrowWiden(scalar: Scalar, n: int)
    requires InRange(scalar, n)
    ensures Widen(n) < TWO_64 && Narrow(scalar, Widen(n)) == n
  {
    if n < 0 {
      assert (n + TWO_64) % TWO_32 == n + TWO_32;
    }
  }

  /** The content of a length-delimited field. */
  function Content(kind: Kind, v: Value): seq<byte>
    requires Typed(kind, v) && !kind.Number? && !kind.Fixed32? && !kind.TextList? && !kind.ChildList?
  {
    match kind
    case Child(schema) => if v.Sub? then Marshal(schema, v.message) else []
    case _ => if v.Str? then v.bytes else []
  }

  lemma NumberRound(schema: Schema, k: nat, d: seq<byte>, key: nat, scalar: Scalar, n: int)
    requires k < |schema.fields| && FindTag(schema.fields, key / 8) == Some(k) && key < TWO_64
    requires schema.fields[k].kind == Number(scalar) && InRange(scalar, n)
    requires d == Varint(key) + Varint(Widen(n))
    ensures Parse(schema, d, 0) == Some([Known(k, Num(n))])
  {
    ReadKey(d, key, Varint(Widen(n)));
    NarrowWiden(scalar, n);
    ReadVarint(Widen(n), d, |Varint(key)|);
    OneEntry(schema, d, key, k, Num(n));
  }

  lemma FixedRound(schema: Schema, k: nat, d: seq<byte>, key: nat, b: seq<byte>)
    requires k < |schema.fields| && FindTag(schema.fields, key / 8) == Some(k) && key < TWO_64
    requires schema.fields[k].kind == Fixed32 && |b| == 4
    requires d == Varint(key) + b
    ensures Parse(schema, d, 0) == Some([Known(k, Str(b))])
  {
    ReadKey(d, key, b);
    assert d[|Varint(key)|..|Varint(key)| + 4] == b;
    OneEntry(schema, d, key, k, Str(b));
  }

  lemma RecordRound(schema: Schema, k: nat, d: seq<byte>, key: nat, b: seq<byte>, v: Value)
    requires k < |schema.fields| && FindTag(schema.fields, key / 8) == Some(k) && key < TWO_64
    requires !schema.fields[k].kind.Number? && !schema.fields[k].kind.Fixed32?
    requires FromRecord(schema.fields[k].kind, b) == Some(v)
    requires Fits(b) && d == Varint(key) + (Varint(|b|) + b)
    ensures Parse(schema, d, 0) == Some([Known(k, v)])
  {
    var h, r := Varint(key), Varint(|b|) + b;
    ReadKey(d, key, r);
    assert forall x | 0 <= x < |r| :: r[x] == d[x + |h|];
    ReadRecord(b, d, |h|);
    OneEntry(schema, d, key, k, v);
  }

  /** One value written by appendField is read back as one entry. */
  lemma {:induction false} AppendRound(schema: Schema, k: nat, v: Value)
    requires WellFormed(schema) && k < |schema.fields|
    requires GoodEntry(schema, Known(k, v))
    requires schema.fields[k].kind.Blob? ==> v.Str?
    requires var f := schema.fields[k]; Fits(AppendField(f.number, Element(f.kind), v))
    ensures var f := schema.fields[k];
            Parse(schema, AppendField(f.number, Element(f.kind), v), 0) == Some([Known(k, v)])
    decreases v, 0
  {
    var f := schema.fields[k];
    var kind := Element(f.kind);
    FindOwnTag(schema.fields, k);
    if kind.Number? {
      NumberRound(schema, k, AppendField(f.number, kind, v), f.number * 8, kind.scalar, v.n);
    } else if kind.Fixed32? {
      FixedRound(schema, k, AppendField(f.number, kind, v), f.number * 8 + 5, v.bytes);
    } else {
      var b, key := Content(kind, v), f.number * 8 + 2;
      var d := AppendField(f.number, kind, v);
      assert d == Varint(key) + (Varint(|b|) + b);
      if kind.Child? {
        RoundTrip(kind.schema, v.message);
      }
      RecordRound(schema, k, d, key, b, v);
    }
  }

  lemma OneEntry(schema: Schema, d: seq<byte>, key: nat, k: nat, v: Value)
    requires k < |schema.fields| && FindTag(schema.fields, key / 8) == Some(k)
    requires |Varint(key)| < |d| && ReadVar(d, 0) == Got(key, |Varint(key)|)
    requires ReadValue(schema.fields[k].kind, d, |Varint(key)|) == Got(v, |d| - |Varint(key)|)
    ensures Parse(schema, d, 0) == Some([Known(k, v)])
  {
    assert ReadEntry(schema, d, 0) == Got(Known(k, v), |d|);
    assert Parse(schema, d, |d|) == Some([]);
    assert [Known(k, v)] + [] == [Known(k, v)];
  }

  /** The entries of the first n elements of a repeated field. */
  function ItemEntries(k: nat, items: seq<Value>, n: nat): seq<Entry>
    requires n <= |items|
  {
    if n == 0 then [] else ItemEntries(k, items, n - 1) + [Known(k, items[n - 1])]
  }

  function FieldEntries(f: Field, k: nat, v: Value): seq<Entry> {
    if v.Many? then ItemEntries(k, v.items, |v.items|)
    else if v == ZeroValue(f.kind) then []
    else [Known(k, v)]
  }

  function FieldsEntries(schema: Schema, m: Message, n: nat): seq<Entry>
    requires n <= |m.fields| == |schema.fields|
  {
    if n == 0 then []
    else FieldsEntries(schema, m, n - 1) + FieldEntries(schema.fields[n - 1], n - 1, m.fields[n - 1])
  }

  lemma {:induction false} ItemsRound(schema: Schema, k: nat, v: Value, n: nat)
    requires WellFormed(schema) && k < |schema.fields|
    requires Canonical(schema.fields[k].kind, v) && v.Many? && n <= |v.items|
    requires Fits(AppendItems(schema.fields[k].number, schema.fields[k].kind, v, n))
    ensures Parse(schema, AppendItems(schema.fields[k].number, schema.fields[k].kind, v, n), 0)
            == Some(ItemEntries(k, v.items, n))
    decreases v, 1, n
  {
    var f := schema.fields[k];
    if n > 0 {
      ItemsRound(schema, k, v, n - 1);
      AppendRound(schema, k, v.items[n - 1]);
      ParseConcat(schema, AppendItems(f.number, f.kind, v, n - 1), AppendField(f.number, Element(f.kind), v.items[n - 1]));
    }
  }

  lemma {:induction false} FieldRound(schema: Schema, k: nat, v: Value)
    requires WellFormed(schema) && k < |schema.fields|
    requires Canonical(schema.fields[k].kind, v)
    requires Fits(MarshalField(schema.fields[k], v))
    ensures Parse(schema, MarshalField(schema.fields[k], v), 0) == Some(FieldEntries(schema.fields[k], k, v))
    decreases v, 2
  {
    if v.Many? {
      ItemsRound(schema, k, v, |v.items|);
    } else if v != ZeroValue(schema.fields[k].kind) {
      AppendRound(schema, k, v);
    }
  }

  lemma {:induction false} FieldsRound(schema: Schema, m: Message, n: nat)
    requires WellFormed(schema) && CanonicalMessage(schema, m) && n <= |m.fields|
    requires Fits(MarshalFields(schema, m, n))
    ensures Parse(schema, MarshalFields(schema, m, n), 0) == Some(FieldsEntries(schema, m, n))
    decreases m, 0, n
  {
    if n > 0 {
      FieldsRound(schema, m, n - 1);
      FieldRound(schema, n - 1, m.fields[n - 1]);
      FieldsJoin(schema, m, n, MarshalFields(schema, m, n - 1), MarshalField(schema.fields[n - 1], m.fields[n - 1]));
    }
  }

  lemma FieldsJoin(schema: Schema, m: Message, n: nat, a: seq<byte>, b: seq<byte>)
    requires TypedMessage(schema, m) && 0 < n <= |m.fields|
    requires a == MarshalFields(schema, m, n - 1) && b == MarshalField(schema.fields[n - 1], m.fields[n - 1])
    requires Parse(schema, a, 0) == Some(FieldsEntries(schema, m, n - 1))
    requires Parse(schema, b, 0) == Some(FieldEntries(schema.fields[n - 1], n - 1, m.fields[n - 1]))
    ensures Parse(schema, MarshalFields(schema, m, n), 0) == Some(FieldsEntries(schema, m, n))
  {
    ParseConcat(schema, a, b);
  }

  /** Applying the elements of a list rebuilds the list. */
  lemma {:induction false} ApplyItems(schema: Schema, m: Message, k: nat, items: seq<Value>, n: nat)
    requires |m.fields| == |schema.fields| && k < |m.fields| && n <= |items|
    requires schema.fields[k].kind.TextList? || schema.fields[k].kind.ChildList?
    requires m.fields[k] == Many([])
    ensures InSchema(schema, ItemEntries(k, items, n))
    ensures ApplyAll(schema, m, ItemEntries(k, items, n)) == m.(fields := m.fields[k := Many(items[..n])])
  {
    if n == 0 {
      assert m.fields[k := Many([])] == m.fields;
    } else {
      ApplyItems(schema, m, k, items, n - 1);
      var e := Known(k, items[n - 1]);
      ApplyConcat(schema, m, ItemEntries(k, items, n - 1), [e]);
      ApplyOne(schema, m.(fields := m.fields[k := Many(items[..n - 1])]), e);
      assert items[..n - 1] + [items[n - 1]] == items[..n];
      assert m.fields[k := Many(items[..n - 1])][k := Many(items[..n])] == m.fields[k := Many(items[..n])];
    }
  }

  lemma ApplyOne(schema: Schema, m: Message, e: Entry)
    requires |m.fields| == |schema.fields| && InSchema(schema, [e])
    ensures e.Known? ==> e.index < |schema.fields|
    ensures ApplyAll(schema, m, [e]) == Apply(schema, m, e)
  {
    assert [e][0] == e && [e][1..] == [];
    assert ApplyAll(schema, Apply(schema, m, e), []) == Apply(schema, m, e);
  }

  /** The message rebuilt once the first n fields are in. */
  function Partial(schema: Schema, m: Message, n: nat): Message
    requires n <= |m.fields| == |schema.fields|
  {
    Message(m.fields[..n] + Zero(schema).fields[n..], [])
  }

  lemma ApplyField(schema: Schema, m: Message, n: nat)
    requires CanonicalMessage(schema, m) && n < |m.fields|
    ensures var es := FieldEntries(schema.fields[n], n, m.fields[n]);
            InSchema(schema, es) && ApplyAll(schema, Partial(schema, m, n), es) == Partial(schema, m, n + 1)
  {
    var f, v, p := schema.fields[n], m.fields[n], Partial(schema, m, n);
    assert p.fields[n] == ZeroValue(f.kind);
    assert Canonical(f.kind, v);
    assert Partial(schema, m, n + 1).fields == p.fields[n := v];
    if v.Many? {
      ApplyItems(schema, p, n, v.items, |v.items|);
      assert v.items[..|v.items|] == v.items;
    } else if v == ZeroValue(f.kind) {
    } else {
      ApplyOne(schema, p, Known(n, v));
    }
  }

  lemma {:induction false} ApplyFields(schema: Schema, m: Message, n: nat)
    requires CanonicalMessage(schema, m) && n <= |m.fields|
    ensures InSchema(schema, FieldsEntries(schema, m, n))
    ensures ApplyAll(schema, Zero(schema), FieldsEntries(schema, m, n)) == Partial(schema, m, n)
  {
    if n == 0 {
      ApplyNone(schema, m);
    } else {
      var k := n - 1;
      assert n == k + 1;
      ApplyFields(schema, m, k);
      ApplyField(schema, m, k);
      ApplyJoin(schema, m, k);
    }
  }

  lemma ApplyNone(schema: Schema, m: Message)
    requires |m.fields| == |schema.fields|
    ensures InSchema(schema, FieldsEntries(schema, m, 0))
    ensures ApplyAll(schema, Zero(schema), FieldsEntries(schema, m, 0)) == Partial(schema, m, 0)
  {
    assert Partial(schema, m, 0).fields == Zero(schema).fields;
  }

  lemma ApplyJoin(schema: Schema, m: Message, k: nat)
    requires CanonicalMessage(schema, m) && k < |m.fields|
    requires InSchema(schema, FieldsEntries(schema, m, k))
    requires ApplyAll(schema, Zero(schema), FieldsEntries(schema, m, k)) == Partial(schema, m, k)
    requires var es := FieldEntries(schema.fields[k], k, m.fields[k]);
             InSchema(schema, es) && ApplyAll(schema, Partial(schema, m, k), es) == Partial(schema, m, k + 1)
    ensures InSchema(schema, FieldsEntries(schema, m, k + 1))
    ensures ApplyAll(schema, Zero(schema), FieldsEntries(schema, m, k + 1)) == Partial(schema, m, k + 1)
  {
    ApplyConcat(schema, Zero(schema), FieldsEntries(schema, m, k), FieldEntries(schema.fields[k], k, m.fields[k]));
  }

  /** Every canonical message is read back from its encoding. */
  lemma {:induction false} RoundTrip(schema: Schema, m: Message)
    requires WellFormed(schema) && CanonicalMessage(schema, m) && Fits(Marshal(schema, m))
    ensures Decode(schema, Marshal(schema, m)) == Some(m)
    decreases m, 1
  {
    var n := |m.fields|;
    var known := MarshalFields(schema, m, n);
    FieldsRound(schema, m, n);
    ApplyFields(schema, m, n);
    assert Partial(schema, m, n) == Message(m.fields, []);
    ParseConcat(schema, known, m.unknown);
    var strays := Parse(schema, m.unknown, 0).value;
    StraysPartition(schema, m.unknown, 0, strays);
    ApplyConcat(schema, Zero(schema), FieldsEntries(schema, m, n), strays);
    ApplyStrays(schema, Message(m.fields, []), strays);
    assert [] + m.unknown == m.unknown == m.unknown[0..];
  }

  /** Whatever decodes is unchanged by re-encoding and decoding again. */
  lemma DecodeMarshalDecode(schema: Schema, d: seq<byte>)
    requires WellFormed(schema) && Decode(schema, d).Some?
    ensures TypedMessage(schema, Decode(schema, d).value)
    ensures var m := Decode(schema, d).value;
            Fits(Marshal(schema, m)) ==> Decode(schema, Marshal(schema, m)) == Some(m)
  {
    DecodeCanonical(schema, d);
    var m := Decode(schema, d).value;
    if Fits(Marshal(schema, m)) {
      RoundTrip(schema, m);
    }
  }

  /** The bytes of d's unknown fields, unchanged and in order, end the re-encoding. */
  lemma UnknownPreserved(schema: Schema, d: seq<byte>)
    requires Decode(schema, d).Some?
    ensures TypedMessage(schema, Decode(schema, d).value)
    ensures var m := Decode(schema, d).value;
            m.unknown == UnknownOf(schema, d)
            && Marshal(schema, m) == MarshalFields(schema, m, |m.fields|) + UnknownOf(schema, d)
  {
    DecodeCanonical(schema, d);
    ParseInSchema(schema, d, 0);
    UnknownCollected(schema, Zero(schema), Parse(schema, d, 0).value);
  }

  /** The encoder leaves out zero values, and no others. */
  lemma ZeroLeftOut(f: Field, v: Value)
    requires Typed(f.kind, v)
    ensures MarshalField(f, v) == [] <==> v == ZeroValue(f.kind)
  {
    if v.Many? && v.items != [] {
      assert AppendField(f.number, Element(f.kind), v.items[|v.items| - 1]) != [];
    }
  }
}
