/**
 The bytes of every category, spelled out, and which values are encoded at all; what is lost
 on the way back; and what the four categories that pass their value through decode to.
 */
module CategoryLayout {
  import opened Prelude
  import opened Wire
  import opened Schema
  import opened SchemaLaws
  import opened Transport
  import opened Categories
  import opened Layout

  /** What the reflective codec writes for a number or a string: nothing for zero. */
  function UZ(key: byte, n: nat): seq<byte> { if n == 0 then [] else U(key, n) }

  function BZ(key: byte, p: seq<byte>): seq<byte> { if p == [] then [] else B(key, p) }

  function EachText(key: byte, texts: seq<seq<byte>>): seq<byte> {
    if texts == [] then [] else B(key, texts[0]) + EachText(key, texts[1..])
  }

  /** The value passes as it is: a struct of the codec in its encoding, any other struct empty, and nothing else. */
  function Passed(b: Body): Option<seq<byte>>
    requires Sendable(b)
  {
    if b.Proto? then Some(Marshal(b.schema, b.message)) else if b.Bytes? || b.EmptyObject? then None else Some([])
  }

  /** The bytes of a value under its category; None if the value has not the category's type. */
  function Spelled(c: Category, b: Body): Option<seq<byte>>
    requires Sendable(b)
  {
    match c
    case PingData => if b.Ping? then Some(U(0x08, b.pingId) + B(0x12, b.payload)) else None
    case SetupContext => Passed(b)
    case CallInterface =>
      if b.Call? then Some(B(0x0a, b.objName) + B(0x12, b.methodName) + EachText(0x1a, b.methodArgs) + U(0x20, b.callId)) else None
    case CallInterfaceResult =>
      if b.CallResult? then Some(BZ(0x0a, b.ret) + UZ(0x10, b.callId) + BZ(0x1a, b.debugInfo)) else None
    case EvaluateJavascript =>
      if b.Evaluate? then Some(BZ(0x0a, b.script) + UZ(0x10, b.evaluateId) + BZ(0x1a, b.debugInfo)) else None
    case EvaluateJavascriptResult => if b.EvaluateResult? then Some(B(0x0a, b.ret) + U(0x10, b.evaluateId)) else None
    case Breakpoint => if b.Break? then Some(if b.isHit then [0x08, 1] else [0x08, 0]) else None
    case PongData => if b.Pong? then Some(UZ(0x08, b.pingId) + UZ(0x10, b.networkType) + BZ(0x1a, b.payload)) else None
    case DomOp => Passed(b)
    case DomEvent => Passed(b)
    case NetworkDebugAPI => Passed(b)
    case ChromeData => if b.Chrome? then Some(U(0x08, b.opId) + B(0x12, b.payload) + B(0x1a, b.jsContextId)) else None
    case AddJsContext => if b.JsContext? then Some(BZ(0x0a, b.id) + BZ(0x12, b.name)) else None
    case RemoveJsContext => if b.JsContext? then Some(BZ(0x0a, b.id)) else None
    case ConnectJsContext => if b.JsContext? then Some(BZ(0x0a, b.id)) else None
    case CustomData =>
      if b.Custom? then Some(B(0x0a, b.method_) + B(0x12, b.payload) + (if b.raw.Some? then B(0x1a, b.raw.value) else [])) else None
    case Unknown => if b.Bytes? then Some(b.bytes) else None
  }

  // ---------------------------------------------------------------- written field by field

  /** The first fields of a struct, written out. */
  lemma TwoFields(c: Category, m: Message, x: seq<byte>, y: seq<byte>)
    requires TypedMessage(SchemaFor(c), m) && |m.fields| >= 2
    requires x == FieldBytes(SchemaFor(c).fields[0], m.fields[0]) && y == FieldBytes(SchemaFor(c).fields[1], m.fields[1])
    ensures Explicit(SchemaFor(c), m, 2) == x + y
  {
    ExplicitFields(SchemaFor(c), m);
  }

  lemma PingLayout(b: Body)
    requires b.Ping?
    ensures Encoded(PingData, b) == Spelled(PingData, b)
  {
    StructTyped(PingData, b);
    UIs(1, 0x08, b.pingId);
    BIs(2, 0x12, b.payload);
    TwoFields(PingData, ToStruct(PingData, b).value, U(0x08, b.pingId), B(0x12, b.payload));
  }

  lemma EvaluateResultLayout(b: Body)
    requires b.EvaluateResult?
    ensures Encoded(EvaluateJavascriptResult, b) == Spelled(EvaluateJavascriptResult, b)
  {
    StructTyped(EvaluateJavascriptResult, b);
    BIs(1, 0x0a, b.ret);
    UIs(2, 0x10, b.evaluateId);
    TwoFields(EvaluateJavascriptResult, ToStruct(EvaluateJavascriptResult, b).value, B(0x0a, b.ret), U(0x10, b.evaluateId));
  }

  lemma BreakLayout(b: Body)
    requires b.Break?
    ensures Encoded(Breakpoint, b) == Spelled(Breakpoint, b)
  {
    StructTyped(Breakpoint, b);
    ExplicitFields(SchemaFor(Breakpoint), ToStruct(Breakpoint, b).value);
    UIs(1, 0x08, if b.isHit then 1 else 0);
    assert U(0x08, 1) == [0x08, 1] && U(0x08, 0) == [0x08, 0];
  }

  lemma ChromeLayout(b: Body)
    requires b.Chrome?
    ensures Encoded(ChromeData, b) == Spelled(ChromeData, b)
  {
    StructTyped(ChromeData, b);
    UIs(1, 0x08, b.opId);
    BIs(2, 0x12, b.payload);
    BIs(3, 0x1a, b.jsContextId);
    ExplicitFields(SchemaFor(ChromeData), ToStruct(ChromeData, b).value);
  }

  lemma CustomLayout(b: Body)
    requires b.Custom?
    ensures Encoded(CustomData, b) == Spelled(CustomData, b)
  {
    StructTyped(CustomData, b);
    BIs(1, 0x0a, b.method_);
    BIs(2, 0x12, b.payload);
    if b.raw.Some? {
      BIs(3, 0x1a, b.raw.value);
    }
    TwoFields(CustomData, ToStruct(CustomData, b).value, B(0x0a, b.method_), B(0x12, b.payload));
  }

  lemma {:induction false} EachTextMore(key: byte, texts: seq<seq<byte>>, t: seq<byte>)
    ensures EachText(key, texts + [t]) == EachText(key, texts) + B(key, t)
    decreases |texts|
  {
    if texts == [] {
      assert [t][1..] == [] && [] + [t] == [t];
    } else {
      EachTextMore(key, texts[1..], t);
      assert (texts + [t])[1..] == texts[1..] + [t];
      Associative(B(key, texts[0]), EachText(key, texts[1..]), B(key, t));
    }
  }

  lemma {:induction false} TextsLayout(args: seq<seq<byte>>, n: nat)
    requires n <= |args|
    ensures Typed(TextList, Many(Texts(args))) && AppendItems(3, TextList, Many(Texts(args)), n) == EachText(0x1a, args[..n])
  {
    TextsTyped(args);
    if n > 0 {
      TextsLayout(args, n - 1);
      TextItem(3, args, n - 1);
      BIs(3, 0x1a, args[n - 1]);
      EachTextMore(0x1a, args[..n - 1], args[n - 1]);
      assert args[..n] == args[..n - 1] + [args[n - 1]];
    }
  }

  lemma CallLayout(b: Body)
    requires b.Call?
    ensures Encoded(CallInterface, b) == Spelled(CallInterface, b)
  {
    var m := ToStruct(CallInterface, b).value;
    StructTyped(CallInterface, b);
    ArgsLayout(b.methodArgs);
    BIs(1, 0x0a, b.objName);
    BIs(2, 0x12, b.methodName);
    UIs(4, 0x20, b.callId);
    ExplicitFields(SchemaFor(CallInterface), m);
  }

  lemma ArgsLayout(args: seq<seq<byte>>)
    ensures Typed(TextList, Many(Texts(args))) && FieldBytes(Field(3, TextList), Many(Texts(args))) == EachText(0x1a, args)
  {
    TextsLayout(args, |args|);
    assert args[..|args|] == args;
  }

  // ---------------------------------------------------------------- written by the reflective codec

  lemma FieldU(number: nat, key: byte, scalar: Scalar, n: nat)
    requires key == number * 8 < 128 && InRange(scalar, n)
    ensures MarshalField(Field(number, Number(scalar)), Num(n)) == UZ(key, n)
  {
    UIs(number, key, n);
  }

  lemma FieldB(number: nat, key: byte, p: seq<byte>)
    requires key == number * 8 + 2 < 128
    ensures MarshalField(Field(number, Text), Str(p)) == BZ(key, p)
  {
    BIs(number, key, p);
  }

  lemma MarshalOne(schema: Schema, m: Message)
    requires TypedMessage(schema, m) && |m.fields| == 1 && m.unknown == []
    ensures Marshal(schema, m) == MarshalField(schema.fields[0], m.fields[0])
  {
    assert MarshalFields(schema, m, 0) == [];
  }

  lemma MarshalTwo(schema: Schema, m: Message)
    requires TypedMessage(schema, m) && |m.fields| == 2 && m.unknown == []
    ensures Marshal(schema, m) == MarshalField(schema.fields[0], m.fields[0]) + MarshalField(schema.fields[1], m.fields[1])
  {
    assert MarshalFields(schema, m, 0) == [];
    assert MarshalFields(schema, m, 1) == MarshalField(schema.fields[0], m.fields[0]);
  }

  lemma MarshalThree(schema: Schema, m: Message)
    requires TypedMessage(schema, m) && |m.fields| == 3 && m.unknown == []
    ensures Marshal(schema, m)
            == MarshalField(schema.fields[0], m.fields[0]) + MarshalField(schema.fields[1], m.fields[1])
               + MarshalField(schema.fields[2], m.fields[2])
  {
    assert MarshalFields(schema, m, 0) == [];
    assert MarshalFields(schema, m, 1) == MarshalField(schema.fields[0], m.fields[0]);
    assert MarshalFields(schema, m, 2) == MarshalFields(schema, m, 1) + MarshalField(schema.fields[1], m.fields[1]);
  }

  lemma ResultLayout(b: Body)
    requires b.CallResult?
    ensures Encoded(CallInterfaceResult, b) == Spelled(CallInterfaceResult, b)
  {
    StructTyped(CallInterfaceResult, b);
    MarshalThree(SchemaFor(CallInterfaceResult), ToStruct(CallInterfaceResult, b).value);
    FieldB(1, 0x0a, b.ret);
    FieldU(2, 0x10, Uint32, b.callId);
    FieldB(3, 0x1a, b.debugInfo);
  }

  lemma EvaluateLayout(b: Body)
    requires b.Evaluate?
    ensures Encoded(EvaluateJavascript, b) == Spelled(EvaluateJavascript, b)
  {
    StructTyped(EvaluateJavascript, b);
    MarshalThree(SchemaFor(EvaluateJavascript), ToStruct(EvaluateJavascript, b).value);
    FieldB(1, 0x0a, b.script);
    FieldU(2, 0x10, Uint32, b.evaluateId);
    FieldB(3, 0x1a, b.debugInfo);
  }

  lemma PongLayout(b: Body)
    requires b.Pong?
    ensures Encoded(PongData, b) == Spelled(PongData, b)
  {
    StructTyped(PongData, b);
    MarshalThree(SchemaFor(PongData), ToStruct(PongData, b).value);
    FieldU(1, 0x08, Uint64, b.pingId);
    FieldU(2, 0x10, Uint32, b.networkType);
    FieldB(3, 0x1a, b.payload);
  }

  lemma ContextLayout(c: Category, b: Body)
    requires b.JsContext? && (c.AddJsContext? || c.RemoveJsContext? || c.ConnectJsContext?)
    ensures Encoded(c, b) == Spelled(c, b)
  {
    StructTyped(c, b);
    FieldB(1, 0x0a, b.id);
    if c.AddJsContext? {
      MarshalTwo(SchemaFor(c), ToStruct(c, b).value);
      FieldB(2, 0x12, b.name);
    } else {
      MarshalOne(SchemaFor(c), ToStruct(c, b).value);
    }
  }

  // ---------------------------------------------------------------- all of them

  /** Nothing else has the type of its category. */
  lemma OtherLayout(c: Category, b: Body)
    requires Sendable(b) && (c.Unknown? || PassedThrough(c) || ToStruct(c, b).None?)
    ensures Encoded(c, b) == Spelled(c, b)
  {
  }

  /** Every value under every category: whether it is encoded, and its bytes. */
  lemma EncodedExactly(c: Category, b: Body)
    requires Sendable(b)
    ensures Encoded(c, b) == Spelled(c, b)
  {
    if c.Unknown? || PassedThrough(c) || ToStruct(c, b).None? {
      OtherLayout(c, b);
    } else {
      match b
      case Ping(_, _) => PingLayout(b);
      case Call(_, _, _, _) => CallLayout(b);
      case CallResult(_, _, _) => ResultLayout(b);
      case Evaluate(_, _, _) => EvaluateLayout(b);
      case EvaluateResult(_, _) => EvaluateResultLayout(b);
      case Break(_) => BreakLayout(b);
      case Pong(_, _, _) => PongLayout(b);
      case Chrome(_, _, _) => ChromeLayout(b);
      case JsContext(_, _) => ContextLayout(c, b);
      case Custom(_, _, _) => CustomLayout(b);
      case _ =>
    }
  }

  /** Nothing is lost but the name of a removed or connected context, and that an empty raw part was not nil. */
  lemma SurvivorExact(c: Category, b: Body)
    ensures Survivor(c, b)
            == if c in {RemoveJsContext, ConnectJsContext} && b.JsContext? then JsContext(b.id, [])
               else if b.Custom? && b.raw == Some([]) then Custom(b.method_, b.payload, None)
               else b
  {
  }

  // ---------------------------------------------------------------- passed through

  /** A DOM operation or event: its parameters and the webview. */
  lemma DomRead(c: Category, params: seq<byte>, webview: uint32)
    requires (c.DomOp? || c.DomEvent?) && Fits(B(0x0a, params) + U(0x10, webview))
    ensures Decoded(c, Some(B(0x0a, params) + U(0x10, webview)))
            == Some(Proto(SchemaFor(c), Message([Str(params), Num(webview)], [])))
  {
    var schema := SchemaFor(c);
    CategoryWellFormed(c);
    DecodeNothing(schema);
    BIs(1, 0x0a, params);
    UIs(2, 0x10, webview);
    assert [] + B(0x0a, params) == B(0x0a, params);
    AddText(schema, [], Zero(schema), 0, params);
    var m1 := With(Zero(schema), 0, Str(params));
    AddNumber(schema, B(0x0a, params), m1, 1, Uint32, webview);
    assert With(m1, 1, Num(webview)).fields == [Str(params), Num(webview)];
  }

  /** A network call: its name, task, headers and time. */
  lemma NetworkRead(name: seq<byte>, task: seq<byte>, headers: seq<byte>, time: uint64)
    requires Fits(B(0x0a, name) + B(0x12, task) + B(0x1a, headers) + U(0x20, time))
    ensures Decoded(NetworkDebugAPI, Some(B(0x0a, name) + B(0x12, task) + B(0x1a, headers) + U(0x20, time)))
            == Some(Proto(SchemaFor(NetworkDebugAPI), Message([Str(name), Str(task), Str(headers), Num(time)], [])))
  {
    var schema := SchemaFor(NetworkDebugAPI);
    CategoryWellFormed(NetworkDebugAPI);
    DecodeNothing(schema);
    BIs(1, 0x0a, name);
    BIs(2, 0x12, task);
    BIs(3, 0x1a, headers);
    UIs(4, 0x20, time);
    assert [] + B(0x0a, name) == B(0x0a, name);
    AddText(schema, [], Zero(schema), 0, name);
    var m1 := With(Zero(schema), 0, Str(name));
    AddText(schema, B(0x0a, name), m1, 1, task);
    var m2 := With(m1, 1, Str(task));
    AddText(schema, B(0x0a, name) + B(0x12, task), m2, 2, headers);
    var m3 := With(m2, 2, Str(headers));
    AddNumber(schema, B(0x0a, name) + B(0x12, task) + B(0x1a, headers), m3, 3, Uint64, time);
    assert With(m3, 3, Num(time)).fields == [Str(name), Str(task), Str(headers), Num(time)];
  }
}
