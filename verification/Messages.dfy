/**
 The three hand-written codecs of internal/wmpf/protocol.go. Each decoder is a loop of its
 own over the wire layer; its contract is that it agrees with the schema-driven decoder for
 the matching message type on every byte string: it fails exactly when that one fails, and
 otherwise finds the same field values.
 */
module Messages {
  import opened Prelude
  import opened Wire
  import opened Schema

  datatype DebugMessage = DebugMessage(
    seqNo: nat, after: nat, category: seq<byte>, data: seq<byte>, compressAlgo: nat, originalSize: nat)

  datatype ChromeDevtools = ChromeDevtools(opId: nat, payload: seq<byte>, jsContextId: seq<byte>)

  /** `raw` is None for the nil slice. */
  datatype CustomMessage = CustomMessage(method_: seq<byte>, payload: seq<byte>, raw: Option<seq<byte>>)

  const DEBUG_MESSAGE := Schema([
    Field(1, Number(Uint32)), Field(2, Number(Uint32)), Field(3, Text),
    Field(4, Blob), Field(5, Number(Uint32)), Field(6, Number(Uint32))])

  const CHROME_DEVTOOLS := Schema([Field(1, Number(Uint64)), Field(2, Text), Field(3, Text)])

  const CUSTOM_MESSAGE := Schema([Field(1, Text), Field(2, Text), Field(3, Blob)])

  function NumOf(v: Value): int { if v.Num? then v.n else 0 }

  function BytesOf(v: Value): seq<byte> { if v.Str? then v.bytes else [] }

  function BlobOf(v: Value): Option<seq<byte>> { if v.Str? then Some(v.bytes) else None }

  /** m holds what the generated struct g holds. */
  ghost predicate IsDebug(m: DebugMessage, g: Message) {
    && |g.fields| == 6
    && m.seqNo == NumOf(g.fields[0]) && m.after == NumOf(g.fields[1])
    && m.category == BytesOf(g.fields[2]) && m.data == BytesOf(g.fields[3])
    && m.compressAlgo == NumOf(g.fields[4]) && m.originalSize == NumOf(g.fields[5])
  }

  ghost predicate IsChrome(m: ChromeDevtools, g: Message) {
    && |g.fields| == 3
    && m.opId == NumOf(g.fields[0])
    && m.payload == BytesOf(g.fields[1]) && m.jsContextId == BytesOf(g.fields[2])
  }

  ghost predicate IsCustom(m: CustomMessage, g: Message) {
    && |g.fields| == 3
    && m.method_ == BytesOf(g.fields[0]) && m.payload == BytesOf(g.fields[1])
    && m.raw == BlobOf(g.fields[2])
  }

  /** The field numbers are 1, 2, 3, ... in struct order. */
  predicate Dense(schema: Schema) {
    forall k | 0 <= k < |schema.fields| :: schema.fields[k].number == k + 1
  }

  lemma AllDense()
    ensures Dense(DEBUG_MESSAGE) && Dense(CHROME_DEVTOOLS) && Dense(CUSTOM_MESSAGE)
    ensures var fields := DEBUG_MESSAGE.fields;
            && |fields| == 6 && fields[0].kind == Number(Uint32) && fields[1].kind == Number(Uint32) && fields[2].kind == Text
            && fields[3].kind == Blob && fields[4].kind == Number(Uint32) && fields[5].kind == Number(Uint32)
  {
  }

  lemma DenseTag(schema: Schema, number: nat)
    requires Dense(schema)
    ensures FindTag(schema.fields, number) == if 1 <= number <= |schema.fields| then Some(number - 1) else None
  {
    if 1 <= number <= |schema.fields| {
      assert schema.fields[number - 1].number == number;
    }
  }

  lemma UnknownNumber(schema: Schema, g: Message, d: seq<byte>, i: nat, key: Read<nat>, next: Option<nat>, whole: Option<Message>)
    requires Dense(schema) && i < |d| && Remains(schema, g, d, i, whole)
    requires key.Got? && key == ReadVar(d, i) && !(1 <= key.value / 8 <= |schema.fields|)
    requires next == Skip(d, i + key.used, key.value % 8)
    ensures next.None? ==> whole.None?
    ensures next.Some? ==> Remains(schema, g.(unknown := g.unknown + d[i..next.value]), d, next.value, whole)
  {
    DenseTag(schema, key.value / 8);
    StrayKept(schema, g, d, i, key, next, whole);
  }

  lemma KnownNumber(
    schema: Schema, g: Message, d: seq<byte>, i: nat, key: Read<nat>, k: nat, scalar: Scalar, v: Read<nat>, whole: Option<Message>)
    requires Dense(schema) && i < |d| && Remains(schema, g, d, i, whole)
    requires key.Got? && key == ReadVar(d, i) && key.value / 8 == k + 1
    requires k < |schema.fields| && schema.fields[k].kind == Number(scalar)
    requires v == ReadVar(d, i + key.used)
    ensures v.Fail? ==> whole.None?
    ensures v.Got? ==>
              Remains(schema, g.(fields := g.fields[k := Num(Narrow(scalar, v.value))]), d, i + key.used + v.used, whole)
  {
    DenseTag(schema, key.value / 8);
    KnownMerged(schema, g, d, i, key, k, if v.Fail? then Fail else Got(Num(Narrow(scalar, v.value)), v.used), whole);
  }

  function Held(kind: Kind, b: seq<byte>): Value { if kind.Blob? && b == [] then Absent else Str(b) }

  lemma KnownBytes(
    schema: Schema, g: Message, d: seq<byte>, i: nat, key: Read<nat>, k: nat, kind: Kind, x: Read<seq<byte>>, whole: Option<Message>)
    requires Dense(schema) && i < |d| && Remains(schema, g, d, i, whole)
    requires key.Got? && key == ReadVar(d, i) && key.value / 8 == k + 1
    requires k < |schema.fields| && schema.fields[k].kind == kind && (kind.Text? || kind.Blob?)
    requires x == ReadBytes(d, i + key.used)
    ensures x.Fail? ==> whole.None?
    ensures x.Got? ==>
              Remains(schema, g.(fields := g.fields[k := Held(kind, x.value)]), d, i + key.used + x.used, whole)
  {
    DenseTag(schema, key.value / 8);
    KnownMerged(schema, g, d, i, key, k, if x.Fail? then Fail else Got(Held(kind, x.value), x.used), whole);
  }

  /** IsDebug, sealed: the decoder sets one of its six fields at a time. */
  ghost predicate HoldsDebug(m: DebugMessage, g: Message) {
    forall question: nat {:trigger Asked(question)} | Asked(question) :: IsDebug(m, g)
  }

  lemma HoldsDebugIs(m: DebugMessage, g: Message)
    ensures HoldsDebug(m, g) <==> IsDebug(m, g)
  {
    assert Asked(0);
  }

  /** One of them set. */
  function SetDebug(m: DebugMessage, k: nat, v: Value): DebugMessage
    requires NumOf(v) >= 0
  {
    match k
    case 0 => m.(seqNo := NumOf(v))
    case 1 => m.(after := NumOf(v))
    case 2 => m.(category := BytesOf(v))
    case 3 => m.(data := BytesOf(v))
    case 4 => m.(compressAlgo := NumOf(v))
    case _ => m.(originalSize := NumOf(v))
  }

  lemma DebugSet(m: DebugMessage, g: Message, k: nat, v: Value)
    requires HoldsDebug(m, g) && k < |g.fields| && NumOf(v) >= 0
    ensures HoldsDebug(SetDebug(m, k, v), g.(fields := g.fields[k := v]))
  {
    HoldsDebugIs(m, g);
    var fields := g.fields[k := v];
    assert forall j | 0 <= j < 6 :: fields[j] == if j == k then v else g.fields[j];
    HoldsDebugIs(SetDebug(m, k, v), g.(fields := g.fields[k := v]));
  }

  /** The next field is a number. */
  lemma DebugNumber(m: DebugMessage, g: Message, d: seq<byte>, i: nat, key: Read<nat>, v: Read<nat>, whole: Option<Message>)
    returns (g': Message)
    requires HoldsDebug(m, g) && i < |d| && Remains(DEBUG_MESSAGE, g, d, i, whole)
    requires key.Got? && key == ReadVar(d, i) && key.value / 8 in {1, 2, 5, 6} && v == ReadVar(d, i + key.used)
    ensures v.Fail? ==> whole.None?
    ensures !v.Fail? ==> Remains(DEBUG_MESSAGE, g', d, i + key.used + v.used, whole)
    ensures !v.Fail? ==> HoldsDebug(SetDebug(m, key.value / 8 - 1, Num(v.value % TWO_32)), g')
  {
    AllDense();
    KnownNumber(DEBUG_MESSAGE, g, d, i, key, key.value / 8 - 1, Uint32, v, whole);
    var n := Num(if v.Got? then v.value % TWO_32 else 0);
    DebugSet(m, g, key.value / 8 - 1, n);
    g' := g.(fields := g.fields[key.value / 8 - 1 := n]);
  }

  /** The next field is a string of bytes. */
  lemma DebugBytes(m: DebugMessage, g: Message, d: seq<byte>, i: nat, key: Read<nat>, x: Read<seq<byte>>, whole: Option<Message>)
    returns (g': Message)
    requires HoldsDebug(m, g) && i < |d| && Remains(DEBUG_MESSAGE, g, d, i, whole)
    requires key.Got? && key == ReadVar(d, i) && key.value / 8 in {3, 4} && x == ReadBytes(d, i + key.used)
    ensures x.Fail? ==> whole.None?
    ensures !x.Fail? ==> Remains(DEBUG_MESSAGE, g', d, i + key.used + x.used, whole)
    ensures !x.Fail? ==> HoldsDebug(SetDebug(m, key.value / 8 - 1, Str(x.value)), g')
  {
    AllDense();
    var kind: Kind := if key.value / 8 == 3 then Text else Blob;
    KnownBytes(DEBUG_MESSAGE, g, d, i, key, key.value / 8 - 1, kind, x, whole);
    var b := if x.Got? then Held(kind, x.value) else Absent;
    DebugSet(m, g, key.value / 8 - 1, b);
    g' := g.(fields := g.fields[key.value / 8 - 1 := b]);
  }

  /** The next field is none of the message's. */
  lemma DebugStray(m: DebugMessage, g: Message, d: seq<byte>, i: nat, key: Read<nat>, next: Option<nat>, whole: Option<Message>)
    returns (g': Message)
    requires HoldsDebug(m, g) && i < |d| && Remains(DEBUG_MESSAGE, g, d, i, whole)
    requires key.Got? && key == ReadVar(d, i) && !(1 <= key.value / 8 <= 6) && next == Skip(d, i + key.used, key.value % 8)
    ensures next.None? ==> whole.None?
    ensures !next.None? ==> Remains(DEBUG_MESSAGE, g', d, next.value, whole) && HoldsDebug(m, g')
  {
    AllDense();
    UnknownNumber(DEBUG_MESSAGE, g, d, i, key, next, whole);
    HoldsDebugIs(m, g);
    g' := if next.Some? then g.(unknown := g.unknown + d[i..next.value]) else g;
    HoldsDebugIs(m, g');
  }

  lemma DebugStart(m: DebugMessage, d: seq<byte>) returns (g: Message)
    requires m == DebugMessage(0, 0, [], [], 0, 0)
    ensures HoldsDebug(m, g) && Remains(DEBUG_MESSAGE, g, d, 0, Decode(DEBUG_MESSAGE, d))
  {
    g := Zero(DEBUG_MESSAGE);
    HoldsDebugIs(m, g);
    AllRemains(DEBUG_MESSAGE, d);
  }

  lemma DebugEnd(m: DebugMessage, g: Message, d: seq<byte>, whole: Option<Message>)
    requires HoldsDebug(m, g) && Remains(DEBUG_MESSAGE, g, d, |d|, whole)
    ensures whole.Some? && IsDebug(m, whole.value)
  {
    NoneRemains(DEBUG_MESSAGE, g, d, whole);
    HoldsDebugIs(m, g);
  }

  /** DecodeDebugMessage. */
  method DecodeDebugMessage(d: seq<byte>) returns (r: Option<DebugMessage>)
    ensures r.Some? <==> Decode(DEBUG_MESSAGE, d).Some?
    ensures r.Some? ==> IsDebug(r.value, Decode(DEBUG_MESSAGE, d).value)
  {
    var m, i := DebugMessage(0, 0, [], [], 0, 0), 0;
    ghost var whole := Decode(DEBUG_MESSAGE, d);
    ghost var g := DebugStart(m, d);
    while i < |d|
      invariant i <= |d| && HoldsDebug(m, g)
      invariant Remains(DEBUG_MESSAGE, g, d, i, whole)
    {
      var key := ReadVarAt(d, i);
      if key.Fail? {
        KeyFails(DEBUG_MESSAGE, g, d, i, whole);
        return None;
      }
      var at := i + key.used;
      match key.value / 8
      case 1 =>
        var v := ReadVarAt(d, at);
        var g' := DebugNumber(m, g, d, i, key, v, whole);
        if v.Fail? {
          return None;
        }
        m, i, g := m.(seqNo := v.value % TWO_32), i + key.used + v.used, g';
      case 2 =>
        var v := ReadVarAt(d, at);
        var g' := DebugNumber(m, g, d, i, key, v, whole);
        if v.Fail? {
          return None;
        }
        m, i, g := m.(after := v.value % TWO_32), i + key.used + v.used, g';
      case 3 =>
        var x := ReadBytesAt(d, at);
        var g' := DebugBytes(m, g, d, i, key, x, whole);
        if x.Fail? {
          return None;
        }
        m, i, g := m.(category := x.value), i + key.used + x.used, g';
      case 4 =>
        var x := ReadBytesAt(d, at);
        var g' := DebugBytes(m, g, d, i, key, x, whole);
        if x.Fail? {
          return None;
        }
        m, i, g := m.(data := x.value), i + key.used + x.used, g';
      case 5 =>
        var v := ReadVarAt(d, at);
        var g' := DebugNumber(m, g, d, i, key, v, whole);
        if v.Fail? {
          return None;
        }
        m, i, g := m.(compressAlgo := v.value % TWO_32), i + key.used + v.used, g';
      case 6 =>
        var v := ReadVarAt(d, at);
        var g' := DebugNumber(m, g, d, i, key, v, whole);
        if v.Fail? {
          return None;
        }
        m, i, g := m.(originalSize := v.value % TWO_32), i + key.used + v.used, g';
      case _ =>
        var next := SkipAt(d, at, key.value % 8);
        var g' := DebugStray(m, g, d, i, key, next, whole);
        if next.None? {
          return None;
        }
        i, g := next.value, g';
    }
    DebugEnd(m, g, d, whole);
    return Some(m);
  }

  /** DecodeChrome. */
  method DecodeChrome(d: seq<byte>) returns (r: Option<ChromeDevtools>)
    ensures r.Some? <==> Decode(CHROME_DEVTOOLS, d).Some?
    ensures r.Some? ==> IsChrome(r.value, Decode(CHROME_DEVTOOLS, d).value)
  {
    var m, i := ChromeDevtools(0, [], []), 0;
    ghost var g, whole := Zero(CHROME_DEVTOOLS), Decode(CHROME_DEVTOOLS, d);
    AllDense();
    AllRemains(CHROME_DEVTOOLS, d);
    while i < |d|
      invariant i <= |d| && IsChrome(m, g)
      invariant Remains(CHROME_DEVTOOLS, g, d, i, whole)
    {
      var key := ReadVarAt(d, i);
      if key.Fail? {
        KeyFails(CHROME_DEVTOOLS, g, d, i, whole);
        return None;
      }
      var at := i + key.used;
      match key.value / 8
      case 1 =>
        var v := ReadVarAt(d, at);
        KnownNumber(CHROME_DEVTOOLS, g, d, i, key, 0, Uint64, v, whole);
        if v.Fail? {
          return None;
        }
        m, i := m.(opId := v.value), i + key.used + v.used;
        g := g.(fields := g.fields[0 := Num(v.value)]);
      case 2 =>
        var x := ReadBytesAt(d, at);
        KnownBytes(CHROME_DEVTOOLS, g, d, i, key, 1, Text, x, whole);
        if x.Fail? {
          return None;
        }
        m, i := m.(payload := x.value), i + key.used + x.used;
        g := g.(fields := g.fields[1 := Held(Text, x.value)]);
      case 3 =>
        var x := ReadBytesAt(d, at);
        KnownBytes(CHROME_DEVTOOLS, g, d, i, key, 2, Text, x, whole);
        if x.Fail? {
          return None;
        }
        m, i := m.(jsContextId := x.value), i + key.used + x.used;
        g := g.(fields := g.fields[2 := Held(Text, x.value)]);
      case _ =>
        var next := SkipAt(d, at, key.value % 8);
        UnknownNumber(CHROME_DEVTOOLS, g, d, i, key, next, whole);
        if next.None? {
          return None;
        }
        g := g.(unknown := g.unknown + d[i..next.value]);
        i := next.value;
    }
    NoneRemains(CHROME_DEVTOOLS, g, d, whole);
    return Some(m);
  }

  /** DecodeCustom. */
  method DecodeCustom(d: seq<byte>) returns (r: Option<CustomMessage>)
    ensures r.Some? <==> Decode(CUSTOM_MESSAGE, d).Some?
    ensures r.Some? ==> IsCustom(r.value, Decode(CUSTOM_MESSAGE, d).value)
  {
    var m, i := CustomMessage([], [], None), 0;
    ghost var g, whole := Zero(CUSTOM_MESSAGE), Decode(CUSTOM_MESSAGE, d);
    AllDense();
    AllRemains(CUSTOM_MESSAGE, d);
    while i < |d|
      invariant i <= |d| && IsCustom(m, g)
      invariant Remains(CUSTOM_MESSAGE, g, d, i, whole)
    {
      var key := ReadVarAt(d, i);
      if key.Fail? {
        KeyFails(CUSTOM_MESSAGE, g, d, i, whole);
        return None;
      }
      var at := i + key.used;
      match key.value / 8
      case 1 =>
        var x := ReadBytesAt(d, at);
        KnownBytes(CUSTOM_MESSAGE, g, d, i, key, 0, Text, x, whole);
        if x.Fail? {
          return None;
        }
        m, i := m.(method_ := x.value), i + key.used + x.used;
        g := g.(fields := g.fields[0 := Held(Text, x.value)]);
      case 2 =>
        var x := ReadBytesAt(d, at);
        KnownBytes(CUSTOM_MESSAGE, g, d, i, key, 1, Text, x, whole);
        if x.Fail? {
          return None;
        }
        m, i := m.(payload := x.value), i + key.used + x.used;
        g := g.(fields := g.fields[1 := Held(Text, x.value)]);
      case 3 =>
        var x := ReadBytesAt(d, at);
        KnownBytes(CUSTOM_MESSAGE, g, d, i, key, 2, Blob, x, whole);
        if x.Fail? {
          return None;
        }
        m, i := m.(raw := if x.value == [] then None else Some(x.value)), i + key.used + x.used;
        g := g.(fields := g.fields[2 := Held(Blob, x.value)]);
      case _ =>
        var next := SkipAt(d, at, key.value % 8);
        UnknownNumber(CUSTOM_MESSAGE, g, d, i, key, next, whole);
        if next.None? {
          return None;
        }
        g := g.(unknown := g.unknown + d[i..next.value]);
        i := next.value;
    }
    NoneRemains(CUSTOM_MESSAGE, g, d, whole);
    return Some(m);
  }
}
