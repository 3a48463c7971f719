/**
 EncodeCategory and DecodeCategory of internal/wmpf/protocol.go: one law for all categories.
 Some are marshalled by the reflective codec, others written field by field, zeros included.
 */
module Categories {
  import opened Prelude
  import opened Wire
  import opened Schema
  import opened SchemaLaws
  import opened Messages
  import opened Transport

  // ---------------------------------------------------------------- every field, zero or not

  predicate Flat(schema: Schema) {
    forall i | 0 <= i < |schema.fields| :: !schema.fields[i].kind.Child? && !schema.fields[i].kind.ChildList? && !schema.fields[i].kind.Fixed32?
  }

  function FieldBytes(f: Field, v: Value): seq<byte>
    requires Typed(f.kind, v)
  {
    if v.Many? then AppendItems(f.number, f.kind, v, |v.items|) else AppendField(f.number, f.kind, v)
  }

  /** The first n fields, each written even if zero. */
  function Explicit(schema: Schema, m: Message, n: nat): seq<byte>
    requires TypedMessage(schema, m) && n <= |m.fields|
  {
    if n == 0 then [] else Explicit(schema, m, n - 1) + FieldBytes(schema.fields[n - 1], m.fields[n - 1])
  }

  lemma {:induction false} AddTexts(schema: Schema, a: seq<byte>, m: Message, k: nat, v: Value, n: nat)
    requires HasField(schema, k, TextList) && Typed(TextList, v) && n <= |v.items| && Decode(schema, a) == Some(m)
    requires |m.fields| == |schema.fields| && m.fields[k] == Many([])
    requires Fits(AppendItems(schema.fields[k].number, TextList, v, n))
    ensures Decode(schema, a + AppendItems(schema.fields[k].number, TextList, v, n)) == Some(With(m, k, Many(v.items[..n])))
  {
    var number := schema.fields[k].number;
    if n == 0 {
      assert a + [] == a;
      assert m.fields[k := Many([])] == m.fields;
    } else {
      var before, item := AppendItems(number, TextList, v, n - 1), v.items[n - 1].bytes;
      assert AppendItems(number, TextList, v, n) == before + BytesField(number, item);
      AddTexts(schema, a, m, k, v, n - 1);
      AddOneText(schema, a + before, With(m, k, Many(v.items[..n - 1])), k, item, v.items[..n - 1]);
      Associative(a, before, BytesField(number, item));
      assert v.items[..n - 1] + [v.items[n - 1]] == v.items[..n];
      WithTwice(m, k, Many(v.items[..n - 1]), Many(v.items[..n]));
    }
  }

  lemma AddOneText(schema: Schema, a: seq<byte>, m: Message, k: nat, item: seq<byte>, items: seq<Value>)
    requires HasField(schema, k, TextList) && Fits(item) && Decode(schema, a) == Some(m)
    requires |m.fields| == |schema.fields| && m.fields[k] == Many(items)
    ensures Decode(schema, a + BytesField(schema.fields[k].number, item)) == Some(With(m, k, Many(items + [Str(item)])))
  {
    AddRecord(schema, a, m, k, item, Str(item));
  }

  lemma AddField(schema: Schema, a: seq<byte>, m: Message, k: nat, v: Value)
    requires WellFormed(schema) && Flat(schema) && k < |schema.fields| && Canonical(schema.fields[k].kind, v)
    requires Decode(schema, a) == Some(m) && |m.fields| == |schema.fields| && m.fields[k] == ZeroValue(schema.fields[k].kind)
    requires Fits(FieldBytes(schema.fields[k], v))
    ensures Decode(schema, a + FieldBytes(schema.fields[k], v)) == Some(With(m, k, v))
  {
    match schema.fields[k].kind
    case Number(scalar) => AddNumber(schema, a, m, k, scalar, v.n);
    case Text => AddText(schema, a, m, k, v.bytes);
    case Blob => AddBlob(schema, a, m, k, BytesOf(v));
    case TextList =>
      AddTexts(schema, a, m, k, v, |v.items|);
      assert v.items[..|v.items|] == v.items;
  }

  /** Writing zeros out changes nothing for the reader. */
  lemma {:induction false} ExplicitRead(schema: Schema, m: Message, n: nat)
    requires WellFormed(schema) && Flat(schema) && CanonicalMessage(schema, m) && n <= |m.fields|
    requires Fits(Explicit(schema, m, n))
    ensures Decode(schema, Explicit(schema, m, n)) == Some(Partial(schema, m, n))
  {
    if n == 0 {
      DecodeNothing(schema);
      assert Partial(schema, m, 0).fields == Zero(schema).fields;
    } else {
      var k := n - 1;
      assert n == k + 1;
      ExplicitMore(schema, m, k);
      ExplicitRead(schema, m, k);
      ExplicitStep(schema, m, k);
    }
  }

  lemma ExplicitMore(schema: Schema, m: Message, k: nat)
    requires TypedMessage(schema, m) && k < |m.fields| && Fits(Explicit(schema, m, k + 1))
    ensures Fits(Explicit(schema, m, k)) && Fits(FieldBytes(schema.fields[k], m.fields[k]))
    ensures Explicit(schema, m, k + 1) == Explicit(schema, m, k) + FieldBytes(schema.fields[k], m.fields[k])
  {
    assert |Explicit(schema, m, k + 1)| == |Explicit(schema, m, k)| + |FieldBytes(schema.fields[k], m.fields[k])|;
  }

  lemma ExplicitStep(schema: Schema, m: Message, k: nat)
    requires WellFormed(schema) && Flat(schema) && CanonicalMessage(schema, m) && k < |m.fields|
    requires Fits(Explicit(schema, m, k + 1)) && Decode(schema, Explicit(schema, m, k)) == Some(Partial(schema, m, k))
    ensures Decode(schema, Explicit(schema, m, k + 1)) == Some(Partial(schema, m, k + 1))
  {
    ExplicitMore(schema, m, k);
    PartialStep(schema, m, k);
    AddField(schema, Explicit(schema, m, k), Partial(schema, m, k), k, m.fields[k]);
  }

  lemma PartialStep(schema: Schema, m: Message, k: nat)
    requires CanonicalMessage(schema, m) && k < |m.fields|
    ensures var p := Partial(schema, m, k);
            && p.fields[k] == ZeroValue(schema.fields[k].kind) && |p.fields| == |schema.fields|
            && Canonical(schema.fields[k].kind, m.fields[k])
            && With(p, k, m.fields[k]) == Partial(schema, m, k + 1)
  {
    assert With(Partial(schema, m, k), k, m.fields[k]).fields == Partial(schema, m, k + 1).fields;
  }

  // ---------------------------------------------------------------- the categories

  type uint64 = x: int | 0 <= x < TWO_64

  datatype Category =
    | PingData | SetupContext | CallInterface | CallInterfaceResult | EvaluateJavascript | EvaluateJavascriptResult
    | Breakpoint | PongData | DomOp | DomEvent | NetworkDebugAPI | ChromeData | AddJsContext | RemoveJsContext
    | ConnectJsContext | CustomData | Unknown

  /**
   The Go values of the categories. Structs of the reflective codec stay messages with their
   schema; EmptyObject is the empty map that stands for nothing decoded.
   */
  datatype Body =
    | Ping(pingId: uint64, payload: seq<byte>)
    | Call(objName: seq<byte>, methodName: seq<byte>, methodArgs: seq<seq<byte>>, callId: uint32)
    | CallResult(ret: seq<byte>, callId: uint32, debugInfo: seq<byte>)
    | Evaluate(script: seq<byte>, evaluateId: uint32, debugInfo: seq<byte>)
    | EvaluateResult(ret: seq<byte>, evaluateId: uint32)
    | Break(isHit: bool)
    | Pong(pingId: uint64, networkType: uint32, payload: seq<byte>)
    | Chrome(opId: uint64, payload: seq<byte>, jsContextId: seq<byte>)
    | JsContext(id: seq<byte>, name: seq<byte>)
    | Custom(method_: seq<byte>, payload: seq<byte>, raw: Option<seq<byte>>)
    | Proto(schema: Schema, message: Message)
    | Bytes(bytes: seq<byte>)
    | EmptyObject

  const METHOD := Schema([Field(1, Text), Field(2, TextList)])
  const REGISTER := Schema([Field(1, Text), Field(2, ChildList(METHOD))])
  const DEVICE := Schema([
    Field(1, Text), Field(2, Text), Field(3, Text), Field(4, Text),
    Field(5, Number(Uint32)), Field(6, Fixed32), Field(7, Fixed32), Field(8, Text)])

  function SchemaFor(c: Category): Schema {
    match c
    case PingData => Schema([Field(1, Number(Uint64)), Field(2, Text)])
    case SetupContext => Schema([
      Field(1, Child(REGISTER)), Field(2, Child(DEVICE)), Field(3, Text), Field(4, Text), Field(5, Text), Field(6, Number(Uint32))])
    case CallInterface => Schema([Field(1, Text), Field(2, Text), Field(3, TextList), Field(4, Number(Uint32))])
    case CallInterfaceResult => Schema([Field(1, Text), Field(2, Number(Uint32)), Field(3, Text)])
    case EvaluateJavascript => Schema([Field(1, Text), Field(2, Number(Uint32)), Field(3, Text)])
    case EvaluateJavascriptResult => Schema([Field(1, Text), Field(2, Number(Uint32))])
    case Breakpoint => Schema([Field(1, Number(Bool))])
    case PongData => Schema([Field(1, Number(Uint64)), Field(2, Number(Uint32)), Field(3, Text)])
    case DomOp => Schema([Field(1, Text), Field(2, Number(Uint32))])
    case DomEvent => Schema([Field(1, Text), Field(2, Number(Uint32))])
    case NetworkDebugAPI => Schema([Field(1, Text), Field(2, Text), Field(3, Text), Field(4, Number(Uint64))])
    case ChromeData => CHROME_DEVTOOLS
    case AddJsContext => Schema([Field(1, Text), Field(2, Text)])
    case RemoveJsContext => Schema([Field(1, Text)])
    case ConnectJsContext => Schema([Field(1, Text)])
    case CustomData => CUSTOM_MESSAGE
    case Unknown => Schema([])
  }

  predicate PassedThrough(c: Category) { c in {SetupContext, DomOp, DomEvent, NetworkDebugAPI} }

  function Texts(items: seq<seq<byte>>): (v: seq<Value>)
    ensures |v| == |items| && forall i | 0 <= i < |v| :: v[i] == Str(items[i])
  {
    if items == [] then [] else Texts(items[..|items| - 1]) + [Str(items[|items| - 1])]
  }

  /** The struct EncodeCategory builds or writes out for the other categories; None if the value has the wrong type. */
  function ToStruct(c: Category, b: Body): Option<Message> {
    match (c, b)
    case (PingData, Ping(i, p)) => Some(Message([Num(i), Str(p)], []))
    case (CallInterface, Call(o, m, args, i)) => Some(Message([Str(o), Str(m), Many(Texts(args)), Num(i)], []))
    case (CallInterfaceResult, CallResult(r, i, g)) => Some(Message([Str(r), Num(i), Str(g)], []))
    case (EvaluateJavascript, Evaluate(t, i, g)) => Some(Message([Str(t), Num(i), Str(g)], []))
    case (EvaluateJavascriptResult, EvaluateResult(r, i)) => Some(Message([Str(r), Num(i)], []))
    case (Breakpoint, Break(hit)) => Some(Message([Num(if hit then 1 else 0)], []))
    case (PongData, Pong(i, n, p)) => Some(Message([Num(i), Num(n), Str(p)], []))
    case (ChromeData, Chrome(i, p, x)) => Some(Message([Num(i), Str(p), Str(x)], []))
    case (AddJsContext, JsContext(i, n)) => Some(Message([Str(i), Str(n)], []))
    case (RemoveJsContext, JsContext(i, _)) => Some(Message([Str(i)], []))
    case (ConnectJsContext, JsContext(i, _)) => Some(Message([Str(i)], []))
    case (CustomData, Custom(m, p, raw)) => Some(Message([Str(m), Str(p), if raw.Some? then BlobValue(raw.value) else Absent], []))
    case _ => None
  }

  function BytesAt(m: Message, i: nat): seq<byte> { if i < |m.fields| then BytesOf(m.fields[i]) else [] }

  function NumAt(m: Message, i: nat, limit: int): int
    requires limit > 0
    ensures 0 <= NumAt(m, i, limit) < limit
  {
    if i < |m.fields| && 0 <= NumOf(m.fields[i]) < limit then NumOf(m.fields[i]) else 0
  }

  function TextsOf(items: seq<Value>): seq<seq<byte>> {
    if items == [] then [] else TextsOf(items[..|items| - 1]) + [BytesOf(items[|items| - 1])]
  }

  function TextsAt(m: Message, i: nat): seq<seq<byte>> {
    if i < |m.fields| && m.fields[i].Many? then TextsOf(m.fields[i].items) else []
  }

  /** The value DecodeCategory builds from a decoded struct. */
  function FromStruct(c: Category, m: Message): Body {
    match c
    case PingData => Ping(NumAt(m, 0, TWO_64), BytesAt(m, 1))
    case CallInterface => Call(BytesAt(m, 0), BytesAt(m, 1), TextsAt(m, 2), NumAt(m, 3, TWO_32))
    case CallInterfaceResult => CallResult(BytesAt(m, 0), NumAt(m, 1, TWO_32), BytesAt(m, 2))
    case EvaluateJavascript => Evaluate(BytesAt(m, 0), NumAt(m, 1, TWO_32), BytesAt(m, 2))
    case EvaluateJavascriptResult => EvaluateResult(BytesAt(m, 0), NumAt(m, 1, TWO_32))
    case Breakpoint => Break(NumAt(m, 0, TWO_32) != 0)
    case PongData => Pong(NumAt(m, 0, TWO_64), NumAt(m, 1, TWO_32), BytesAt(m, 2))
    case ChromeData => Chrome(NumAt(m, 0, TWO_64), BytesAt(m, 1), BytesAt(m, 2))
    case AddJsContext => JsContext(BytesAt(m, 0), BytesAt(m, 1))
    case RemoveJsContext => JsContext(BytesAt(m, 0), [])
    case ConnectJsContext => JsContext(BytesAt(m, 0), [])
    case CustomData => Custom(BytesAt(m, 0), BytesAt(m, 1), if |m.fields| == 3 then BlobOf(m.fields[2]) else None)
    case _ => Proto(SchemaFor(c), m)
  }

  lemma {:induction false} TextsRound(items: seq<seq<byte>>)
    ensures TextsOf(Texts(items)) == items
  {
    if items != [] {
      var n := |items| - 1;
      TextsRound(items[..n]);
      assert Texts(items)[..n] == Texts(items[..n]);
      assert items == items[..n] + [items[n]];
    }
  }

  /** What is lost on the way: the name of a removed or connected context, and an empty raw part. */
  function Survivor(c: Category, b: Body): Body {
    if (c.RemoveJsContext? || c.ConnectJsContext?) && b.JsContext? then b.(name := [])
    else if b.Custom? && b.raw == Some([]) then b.(raw := None)
    else b
  }

  /** Building the struct and reading it back gives the value, but for what is lost. */
  lemma StructRound(c: Category, b: Body)
    requires ToStruct(c, b).Some?
    ensures FromStruct(c, ToStruct(c, b).value) == Survivor(c, b)
  {
    if b.Call? {
      TextsRound(b.methodArgs);
    }
  }

  predicate WritesZeros(c: Category) {
    c in {PingData, CallInterface, EvaluateJavascriptResult, Breakpoint, ChromeData}
  }

  lemma TextsTyped(args: seq<seq<byte>>)
    ensures Typed(TextList, Many(Texts(args))) && Clean(TextList, Many(Texts(args)))
  {
  }

  /** The structs built from values are canonical: decoding can produce each. */
  lemma StructCanonical(c: Category, b: Body)
    requires ToStruct(c, b).Some?
    ensures CanonicalMessage(SchemaFor(c), ToStruct(c, b).value)
  {
    assert Parse(SchemaFor(c), [], 0) == Some([]);
    StructFields(c, b);
  }

  lemma StructFields(c: Category, b: Body)
    requires ToStruct(c, b).Some?
    ensures var m := ToStruct(c, b).value;
            && |m.fields| == |SchemaFor(c).fields| && m.unknown == []
            && forall i | 0 <= i < |m.fields| :: Canonical(SchemaFor(c).fields[i].kind, m.fields[i])
  {
    if b.Call? {
      TextsTyped(b.methodArgs);
    }
  }

  lemma SetupWellFormed()
    ensures WellFormed(SchemaFor(SetupContext))
  {
    DenseWellFormed(METHOD);
    DenseWellFormed(REGISTER);
    DenseWellFormed(DEVICE);
    DenseWellFormed(SchemaFor(SetupContext));
  }

  lemma CategoryShape(c: Category)
    requires !c.SetupContext?
    ensures Flat(SchemaFor(c)) && Dense(SchemaFor(c)) && |SchemaFor(c).fields| <= 8
  {
  }

  lemma CategoryWellFormed(c: Category)
    ensures WellFormed(SchemaFor(c)) && (!c.SetupContext? ==> Flat(SchemaFor(c)))
  {
    if c.SetupContext? {
      SetupWellFormed();
    } else {
      CategoryShape(c);
      DenseWellFormed(SchemaFor(c));
    }
  }

  // ---------------------------------------------------------------- encoding and decoding

  /** A message has the field types of its struct. */
  predicate Sendable(b: Body) { b.Proto? ==> TypedMessage(b.schema, b.message) }

  lemma StructTyped(c: Category, b: Body)
    requires ToStruct(c, b).Some?
    ensures TypedMessage(SchemaFor(c), ToStruct(c, b).value)
  {
    StructCanonical(c, b);
  }

  /**
   MarshalMessage on the value as it comes: a struct of the codec in its own encoding, any
   other struct has no tagged field and gives nothing, and what is no struct fails.
   */
  function PassThrough(b: Body): Option<seq<byte>>
    requires Sendable(b)
  {
    match b
    case Proto(schema, m) => Some(Marshal(schema, m))
    case Bytes(_) => None
    case EmptyObject => None
    case _ => Some([])
  }

  /** The raw field of a custom message is left out if nil. */
  function RawPart(raw: Option<seq<byte>>): seq<byte> { if raw.Some? then BytesField(3, raw.value) else [] }

  /** EncodeCategory: None for a value of the wrong type. */
  function Encoded(c: Category, b: Body): Option<seq<byte>>
    requires Sendable(b)
  {
    if c.Unknown? then if b.Bytes? then Some(b.bytes) else None
    else if PassedThrough(c) then PassThrough(b)
    else if ToStruct(c, b).None? then None
    else
      StructTyped(c, b);
      var m := ToStruct(c, b).value;
      if c.CustomData? then Some(Explicit(CUSTOM_MESSAGE, m, 2) + RawPart(b.raw))
      else if WritesZeros(c) then Some(Explicit(SchemaFor(c), m, |m.fields|))
      else Some(Marshal(SchemaFor(c), m))
  }

  /** DecodeCategory; data is None for the nil slice. Unknown categories and nil pings give an empty object. */
  function Decoded(c: Category, data: Option<seq<byte>>): Option<Body> {
    if c.Unknown? || (c.PingData? && data.None?) then Some(EmptyObject)
    else match Decode(SchemaFor(c), data.UnwrapOr([])) case None => None case Some(m) => Some(FromStruct(c, m))
  }

  lemma ExplicitFields(schema: Schema, m: Message)
    requires TypedMessage(schema, m)
    ensures |m.fields| >= 1 ==> Explicit(schema, m, 1) == FieldBytes(schema.fields[0], m.fields[0])
    ensures |m.fields| >= 2 ==> Explicit(schema, m, 2) == Explicit(schema, m, 1) + FieldBytes(schema.fields[1], m.fields[1])
    ensures |m.fields| >= 3 ==> Explicit(schema, m, 3) == Explicit(schema, m, 2) + FieldBytes(schema.fields[2], m.fields[2])
    ensures |m.fields| >= 4 ==> Explicit(schema, m, 4) == Explicit(schema, m, 3) + FieldBytes(schema.fields[3], m.fields[3])
  {
    if |m.fields| >= 1 {
      assert Explicit(schema, m, 0) == [];
      assert [] + FieldBytes(schema.fields[0], m.fields[0]) == FieldBytes(schema.fields[0], m.fields[0]);
    }
  }

  /** EncodeChrome, and the branches of EncodeCategory that write their fields one by one. */
  method EncodeChrome(b: Body) returns (out: seq<byte>)
    requires b.Chrome?
    ensures Encoded(ChromeData, b) == Some(out)
  {
    StructTyped(ChromeData, b);
    ExplicitFields(SchemaFor(ChromeData), ToStruct(ChromeData, b).value);
    var buffer := new Buffer();
    PutU(buffer, 1, b.opId);
    PutB(buffer, 2, b.payload);
    PutB(buffer, 3, b.jsContextId);
    return buffer.data;
  }

  method EncodePing(b: Body) returns (out: seq<byte>)
    requires b.Ping?
    ensures Encoded(PingData, b) == Some(out)
  {
    StructTyped(PingData, b);
    ExplicitFields(SchemaFor(PingData), ToStruct(PingData, b).value);
    var buffer := new Buffer();
    PutU(buffer, 1, b.pingId);
    PutB(buffer, 2, b.payload);
    return buffer.data;
  }

  method EncodeEvaluateResult(b: Body) returns (out: seq<byte>)
    requires b.EvaluateResult?
    ensures Encoded(EvaluateJavascriptResult, b) == Some(out)
  {
    StructTyped(EvaluateJavascriptResult, b);
    ExplicitFields(SchemaFor(EvaluateJavascriptResult), ToStruct(EvaluateJavascriptResult, b).value);
    var buffer := new Buffer();
    PutB(buffer, 1, b.ret);
    PutU(buffer, 2, b.evaluateId);
    return buffer.data;
  }

  method EncodeBreakpoint(b: Body) returns (out: seq<byte>)
    requires b.Break?
    ensures Encoded(Breakpoint, b) == Some(out)
  {
    StructTyped(Breakpoint, b);
    ExplicitFields(SchemaFor(Breakpoint), ToStruct(Breakpoint, b).value);
    var buffer := new Buffer();
    if b.isHit {
      PutU(buffer, 1, 1);
    } else {
      PutU(buffer, 1, 0);
    }
    return buffer.data;
  }

  lemma TextItem(number: nat, args: seq<seq<byte>>, j: nat)
    requires j < |args|
    ensures Typed(TextList, Many(Texts(args)))
    ensures var v := Many(Texts(args));
            AppendItems(number, TextList, v, j + 1) == AppendItems(number, TextList, v, j) + BytesField(number, args[j])
  {
    TextsTyped(args);
  }

  method PutTexts(buffer: Buffer, number: nat, args: seq<seq<byte>>)
    modifies buffer
    ensures Typed(TextList, Many(Texts(args)))
    ensures buffer.data == old(buffer.data) + AppendItems(number, TextList, Many(Texts(args)), |args|)
  {
    TextsTyped(args);
    ghost var v := Many(Texts(args));
    for j := 0 to |args|
      invariant buffer.data == old(buffer.data) + AppendItems(number, TextList, v, j)
    {
      TextItem(number, args, j);
      Associative(old(buffer.data), AppendItems(number, TextList, v, j), BytesField(number, args[j]));
      PutB(buffer, number, args[j]);
    }
  }

  method EncodeCall(b: Body) returns (out: seq<byte>)
    requires b.Call?
    ensures Encoded(CallInterface, b) == Some(out)
  {
    var buffer := new Buffer();
    ghost var m := ToStruct(CallInterface, b).value;
    StructTyped(CallInterface, b);
    ExplicitFields(SchemaFor(CallInterface), m);
    PutB(buffer, 1, b.objName);
    PutB(buffer, 2, b.methodName);
    PutTexts(buffer, 3, b.methodArgs);
    PutU(buffer, 4, b.callId);
    return buffer.data;
  }

  method EncodeCustom(b: Body) returns (out: seq<byte>)
    requires b.Custom?
    ensures Encoded(CustomData, b) == Some(out)
  {
    StructTyped(CustomData, b);
    ExplicitFields(SchemaFor(CustomData), ToStruct(CustomData, b).value);
    var buffer := new Buffer();
    PutB(buffer, 1, b.method_);
    PutB(buffer, 2, b.payload);
    ghost var front := Explicit(CUSTOM_MESSAGE, ToStruct(CustomData, b).value, 2);
    assert buffer.data == front && front + [] == front;
    if b.raw.Some? {
      PutB(buffer, 3, b.raw.value);
    }
    return buffer.data;
  }

  method EncodeCategory(c: Category, b: Body) returns (out: Option<seq<byte>>)
    requires Sendable(b)
    ensures out == Encoded(c, b)
  {
    if c.Unknown? {
      if !b.Bytes? { return None; }
      return Some(b.bytes);
    }
    if PassedThrough(c) {
      if b.Bytes? || b.EmptyObject? { return None; }
      if !b.Proto? { return Some([]); }
      var inner := MarshalMessage(b.schema, b.message);
      return Some(inner);
    }
    var m := ToStruct(c, b);
    if m.None? { return None; }
    StructTyped(c, b);
    var d;
    if c.ChromeData? {
      d := EncodeChrome(b);
    } else if c.PingData? {
      d := EncodePing(b);
    } else if c.EvaluateJavascriptResult? {
      d := EncodeEvaluateResult(b);
    } else if c.Breakpoint? {
      d := EncodeBreakpoint(b);
    } else if c.CallInterface? {
      d := EncodeCall(b);
    } else if c.CustomData? {
      d := EncodeCustom(b);
    } else {
      d := MarshalMessage(SchemaFor(c), m.value);
    }
    return Some(d);
  }

  lemma ChromeIs(r: ChromeDevtools, m: Message)
    requires IsChrome(r, m)
    ensures FromStruct(ChromeData, m) == Chrome(NumAt(Message([Num(r.opId)], []), 0, TWO_64), r.payload, r.jsContextId)
  {
  }

  lemma CustomIs(r: CustomMessage, m: Message)
    requires IsCustom(r, m)
    ensures FromStruct(CustomData, m) == Custom(r.method_, r.payload, r.raw)
  {
  }

  /** DecodeCategory: the hand-written decoders for two categories, the reflective one for the rest. */
  method DecodeCategory(c: Category, data: Option<seq<byte>>) returns (b: Option<Body>)
    ensures b == Decoded(c, data)
  {
    if c.PingData? && data.None? { return Some(EmptyObject); }
    var d := data.UnwrapOr([]);
    match c {
      case Unknown => return Some(EmptyObject);
      case ChromeData =>
        var r := DecodeChrome(d);
        if r.None? { return None; }
        ChromeIs(r.value, Decode(CHROME_DEVTOOLS, d).value);
        return Some(Chrome(NumAt(Message([Num(r.value.opId)], []), 0, TWO_64), r.value.payload, r.value.jsContextId));
      case CustomData =>
        var r := DecodeCustom(d);
        if r.None? { return None; }
        CustomIs(r.value, Decode(CUSTOM_MESSAGE, d).value);
        return Some(Custom(r.value.method_, r.value.payload, r.value.raw));
      case _ =>
        var m := Unmarshal(SchemaFor(c), d);
        if m.None? { return None; }
        return Some(FromStruct(c, m.value));
    }
  }

  lemma MarshalledRead(c: Category, m: Message)
    requires CanonicalMessage(SchemaFor(c), m) && Fits(Marshal(SchemaFor(c), m))
    ensures Decode(SchemaFor(c), Marshal(SchemaFor(c), m)) == Some(m)
  {
    CategoryWellFormed(c);
    RoundTrip(SchemaFor(c), m);
  }

  lemma ExplicitPart(c: Category, m: Message, n: nat)
    requires !c.SetupContext? && CanonicalMessage(SchemaFor(c), m) && n <= |m.fields|
    requires Fits(Explicit(SchemaFor(c), m, n))
    ensures Decode(SchemaFor(c), Explicit(SchemaFor(c), m, n)) == Some(Partial(SchemaFor(c), m, n))
  {
    CategoryWellFormed(c);
    ExplicitRead(SchemaFor(c), m, n);
  }

  lemma ExplicitWhole(c: Category, m: Message)
    requires !c.SetupContext? && CanonicalMessage(SchemaFor(c), m) && m.unknown == []
    requires Fits(Explicit(SchemaFor(c), m, |m.fields|))
    ensures Decode(SchemaFor(c), Explicit(SchemaFor(c), m, |m.fields|)) == Some(m)
  {
    ExplicitPart(c, m, |m.fields|);
    assert Partial(SchemaFor(c), m, |m.fields|) == m;
  }

  lemma CustomRead(b: Body)
    requires b.Custom? && Fits(Encoded(CustomData, b).value)
    ensures Decode(CUSTOM_MESSAGE, Encoded(CustomData, b).value) == ToStruct(CustomData, b)
  {
    var m := ToStruct(CustomData, b).value;
    StructCanonical(CustomData, b);
    CustomTail(m, b.raw);
  }

  /** Two written fields, and the raw part if there is one. */
  lemma CustomTail(m: Message, raw: Option<seq<byte>>)
    requires CanonicalMessage(CUSTOM_MESSAGE, m) && m.unknown == []
    requires m.fields[2] == if raw.Some? then BlobValue(raw.value) else Absent
    requires Fits(Explicit(CUSTOM_MESSAGE, m, 2) + RawPart(raw))
    ensures Decode(CUSTOM_MESSAGE, Explicit(CUSTOM_MESSAGE, m, 2) + RawPart(raw)) == Some(m)
  {
    ExplicitPart(CustomData, m, 2);
    LastOfThree(m);
    AddRaw(Explicit(CUSTOM_MESSAGE, m, 2), Partial(CUSTOM_MESSAGE, m, 2), raw);
  }

  lemma AddRaw(a: seq<byte>, p: Message, raw: Option<seq<byte>>)
    requires Decode(CUSTOM_MESSAGE, a) == Some(p) && |p.fields| == 3 && Fits(RawPart(raw))
    ensures Decode(CUSTOM_MESSAGE, a + RawPart(raw)) == Some(if raw.Some? then With(p, 2, BlobValue(raw.value)) else p)
  {
    CategoryWellFormed(CustomData);
    if raw.Some? {
      AddBlob(CUSTOM_MESSAGE, a, p, 2, raw.value);
    } else {
      assert a + [] == a;
    }
  }

  lemma LastOfThree(m: Message)
    requires |m.fields| == 3 && m.unknown == []
    ensures With(Partial(CUSTOM_MESSAGE, m, 2), 2, m.fields[2]) == m
    ensures m.fields[2].Absent? ==> Partial(CUSTOM_MESSAGE, m, 2) == m
  {
    assert With(Partial(CUSTOM_MESSAGE, m, 2), 2, m.fields[2]).fields == m.fields;
  }

  /** Every category: decoding what was encoded gives the value, but for what Survivor says is lost. */
  lemma CategoryRoundTrip(c: Category, b: Body)
    requires !c.Unknown? && Sendable(b) && Encoded(c, b).Some? && Fits(Encoded(c, b).value)
    requires PassedThrough(c) ==> b.Proto? && b.schema == SchemaFor(c) && CanonicalMessage(b.schema, b.message)
    ensures Decoded(c, Some(Encoded(c, b).value)) == Some(Survivor(c, b))
  {
    if PassedThrough(c) {
      MarshalledRead(c, b.message);
    } else {
      StructRead(c, b);
      StructRound(c, b);
    }
  }

  /** The struct built from the value is read back. */
  lemma StructRead(c: Category, b: Body)
    requires !c.Unknown? && !PassedThrough(c) && Sendable(b) && Encoded(c, b).Some? && Fits(Encoded(c, b).value)
    ensures ToStruct(c, b).Some? && Decode(SchemaFor(c), Encoded(c, b).value) == ToStruct(c, b)
  {
    var m := ToStruct(c, b).value;
    StructCanonical(c, b);
    if c.CustomData? {
      CustomRead(b);
    } else if WritesZeros(c) {
      ExplicitWhole(c, m);
    } else {
      MarshalledRead(c, m);
    }
  }
}
