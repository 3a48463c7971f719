/**
 The command envelopes of internal/wmpf/transport.go. Their encoders write every field, zero
 or not, and leave some out; what the schema-driven decoder makes of that is proved here.
 */
module Transport {
  import opened Prelude
  import opened Wire
  import opened Schema
  import opened SchemaLaws
  import opened Messages

  // ---------------------------------------------------------------- one more field

  /** Bytes that decode to m, followed by one more field. */
  lemma OneMore(schema: Schema, a: seq<byte>, m: Message, b: seq<byte>, e: Entry)
    requires Decode(schema, a) == Some(m) && Parse(schema, b, 0) == Some([e])
    ensures |m.fields| == |schema.fields| && (e.Known? ==> e.index < |schema.fields|)
    ensures Decode(schema, a + b) == Some(Apply(schema, m, e))
  {
    DecodeConcat(schema, Zero(schema), a, b);
    ParseInSchema(schema, b, 0);
    ApplyOne(schema, m, e);
  }

  predicate HasField(schema: Schema, k: nat, kind: Kind) {
    WellFormed(schema) && k < |schema.fields| && schema.fields[k].kind == kind
  }

  function With(m: Message, k: nat, v: Value): Message
    requires k < |m.fields|
  {
    m.(fields := m.fields[k := v])
  }

  lemma AddNumber(schema: Schema, a: seq<byte>, m: Message, k: nat, scalar: Scalar, n: int)
    requires HasField(schema, k, Number(scalar)) && InRange(scalar, n) && Decode(schema, a) == Some(m)
    ensures k < |m.fields| && Decode(schema, a + UintField(schema.fields[k].number, Widen(n))) == Some(With(m, k, Num(n)))
  {
    var f := schema.fields[k];
    FindOwnTag(schema.fields, k);
    NumberRound(schema, k, UintField(f.number, Widen(n)), f.number * 8, scalar, n);
    OneMore(schema, a, m, UintField(f.number, Widen(n)), Known(k, Num(n)));
  }

  /** A record whose content the field's kind reads as v. */
  lemma AddRecord(schema: Schema, a: seq<byte>, m: Message, k: nat, b: seq<byte>, v: Value)
    requires WellFormed(schema) && k < |schema.fields| && !schema.fields[k].kind.Number? && !schema.fields[k].kind.Fixed32?
    requires FromRecord(schema.fields[k].kind, b) == Some(v) && Fits(b) && Decode(schema, a) == Some(m)
    ensures |m.fields| == |schema.fields|
    ensures Decode(schema, a + BytesField(schema.fields[k].number, b)) == Some(Apply(schema, m, Known(k, v)))
  {
    var f := schema.fields[k];
    FindOwnTag(schema.fields, k);
    var d := BytesField(f.number, b);
    assert d == Varint(f.number * 8 + 2) + (Varint(|b|) + b);
    RecordRound(schema, k, d, f.number * 8 + 2, b, v);
    OneMore(schema, a, m, d, Known(k, v));
  }

  lemma AddText(schema: Schema, a: seq<byte>, m: Message, k: nat, b: seq<byte>)
    requires HasField(schema, k, Text) && Fits(b) && Decode(schema, a) == Some(m)
    ensures k < |m.fields| && Decode(schema, a + BytesField(schema.fields[k].number, b)) == Some(With(m, k, Str(b)))
  {
    AddRecord(schema, a, m, k, b, Str(b));
  }

  function BlobValue(b: seq<byte>): Value { if b == [] then Absent else Str(b) }

  lemma AddBlob(schema: Schema, a: seq<byte>, m: Message, k: nat, b: seq<byte>)
    requires HasField(schema, k, Blob) && Fits(b) && Decode(schema, a) == Some(m)
    ensures k < |m.fields| && Decode(schema, a + BytesField(schema.fields[k].number, b)) == Some(With(m, k, BlobValue(b)))
  {
    AddRecord(schema, a, m, k, b, BlobValue(b));
  }

  lemma AddChild(schema: Schema, a: seq<byte>, m: Message, k: nat, inner: Schema, b: seq<byte>, child: Message)
    requires HasField(schema, k, Child(inner)) && Fits(b) && Decode(schema, a) == Some(m) && Decode(inner, b) == Some(child)
    ensures k < |m.fields| && Decode(schema, a + BytesField(schema.fields[k].number, b)) == Some(With(m, k, Sub(child)))
  {
    AddRecord(schema, a, m, k, b, Sub(child));
  }

  lemma AddItem(schema: Schema, a: seq<byte>, m: Message, k: nat, inner: Schema, b: seq<byte>, child: Message, items: seq<Value>)
    requires HasField(schema, k, ChildList(inner)) && Fits(b) && Decode(schema, a) == Some(m) && Decode(inner, b) == Some(child)
    requires |m.fields| == |schema.fields| && m.fields[k] == Many(items)
    ensures Decode(schema, a + BytesField(schema.fields[k].number, b)) == Some(With(m, k, Many(items + [Sub(child)])))
  {
    AddRecord(schema, a, m, k, b, Sub(child));
  }

  // ---------------------------------------------------------------- the message types

  type uint32 = x: int | 0 <= x < TWO_32
  type int32 = x: int | -TWO_31 <= x < TWO_31

  /** The structs, without their unknown fields, which the encoders of this file ignore. */
  datatype BaseResp = BaseResp(errcode: int32, errmsg: seq<byte>)

  datatype RoomInfo = RoomInfo(
    joinRoom: bool, roomId: seq<byte>, originalMd5: seq<byte>, roomStatus: uint32, wxConnStatus: uint32, devConnStatus: uint32)

  datatype Listed = Listed(
    seqNo: uint32, after: uint32, category: seq<byte>, data: seq<byte>, compressAlgo: uint32, originalSize: uint32)

  const BASE_RESP := Schema([Field(1, Number(Int32)), Field(2, Text)])
  const ROOM_INFO := Schema([
    Field(1, Number(Bool)), Field(2, Text), Field(3, Text),
    Field(4, Number(Uint32)), Field(5, Number(Uint32)), Field(6, Number(Uint32))])

  /** A struct as the reflective codec sees it. */
  function BaseStruct(r: BaseResp): Message { Message([Num(r.errcode), Str(r.errmsg)], []) }

  function RoomStruct(r: RoomInfo): Message {
    Message([Num(if r.joinRoom then 1 else 0), Str(r.roomId), Str(r.originalMd5),
             Num(r.roomStatus), Num(r.wxConnStatus), Num(r.devConnStatus)], [])
  }

  function ListedStruct(m: Listed): Message {
    Message([Num(m.seqNo), Num(m.after), Str(m.category), BlobValue(m.data), Num(m.compressAlgo), Num(m.originalSize)], [])
  }

  predicate Inner(kind: Kind) {
    match kind
    case Child(inner) => WellFormed(inner)
    case ChildList(inner) => WellFormed(inner)
    case _ => true
  }

  lemma DenseWellFormed(schema: Schema)
    requires Dense(schema) && |schema.fields| <= 8 && forall i | 0 <= i < |schema.fields| :: Inner(schema.fields[i].kind)
    ensures WellFormed(schema)
  {
  }

  lemma BaseWellFormed()
    ensures WellFormed(BASE_RESP)
  {
  }

  lemma RoomWellFormed()
    ensures WellFormed(ROOM_INFO)
  {
    DenseWellFormed(ROOM_INFO);
  }

  lemma ListedWellFormed()
    ensures WellFormed(DEBUG_MESSAGE)
  {
    DenseWellFormed(DEBUG_MESSAGE);
  }

  lemma DecodeNothing(schema: Schema)
    ensures Decode(schema, []) == Some(Zero(schema))
  {
    assert Parse(schema, [], 0) == Some([]);
  }

  // ---------------------------------------------------------------- the parts

  /** encodeBaseResponseCodex of a pointer that is not nil. */
  function BaseBytes(r: BaseResp): seq<byte> {
    UintField(1, Widen(r.errcode)) + BytesField(2, r.errmsg)
  }

  method EncodeBaseResponseCodex(value: Option<BaseResp>) returns (out: seq<byte>)
    ensures out == match value case None => [] case Some(r) => BaseBytes(r)
  {
    if value.None? { return []; }
    var b := new Buffer();
    var code := Widen(value.value.errcode);
    PutU(b, 1, code);
    assert b.data == UintField(1, code);
    PutB(b, 2, value.value.errmsg);
    return b.data;
  }

  /** Negative error codes included: they travel sign-extended. */
  lemma BaseRead(r: BaseResp)
    requires Fits(BaseBytes(r))
    ensures Decode(BASE_RESP, BaseBytes(r)) == Some(BaseStruct(r))
  {
    BaseWellFormed();
    DecodeNothing(BASE_RESP);
    var a := UintField(1, Widen(r.errcode));
    var m0 := Zero(BASE_RESP);
    assert [] + a == a;
    AddNumber(BASE_RESP, [], m0, 0, Int32, r.errcode);
    var m1 := With(m0, 0, Num(r.errcode));
    AddText(BASE_RESP, a, m1, 1, r.errmsg);
    assert With(m1, 1, Str(r.errmsg)).fields == BaseStruct(r).fields;
  }

  function RoomBytes(r: RoomInfo): seq<byte> {
    UintField(1, if r.joinRoom then 1 else 0) + BytesField(2, r.roomId) + BytesField(3, r.originalMd5)
    + UintField(4, r.roomStatus) + UintField(5, r.wxConnStatus) + UintField(6, r.devConnStatus)
  }

  method EncodeRoomInfoCodex(value: Option<RoomInfo>) returns (out: seq<byte>)
    ensures out == match value case None => [] case Some(r) => RoomBytes(r)
  {
    var b := new Buffer();
    if value.None? { return b.data; }
    var r := value.value;
    var join := 0;
    if r.joinRoom { join := 1; }
    PutU(b, 1, join);
    assert b.data == UintField(1, if r.joinRoom then 1 else 0);
    PutB(b, 2, r.roomId);
    PutB(b, 3, r.originalMd5);
    PutU(b, 4, r.roomStatus);
    PutU(b, 5, r.wxConnStatus);
    PutU(b, 6, r.devConnStatus);
    return b.data;
  }

  lemma RoomRead(r: RoomInfo)
    requires Fits(RoomBytes(r))
    ensures Decode(ROOM_INFO, RoomBytes(r)) == Some(RoomStruct(r))
  {
    RoomWellFormed();
    DecodeNothing(ROOM_INFO);
    var f := RoomStruct(r).fields;
    var a1 := UintField(1, if r.joinRoom then 1 else 0);
    var a2 := a1 + BytesField(2, r.roomId);
    var a3 := a2 + BytesField(3, r.originalMd5);
    var a4 := a3 + UintField(4, r.roomStatus);
    var a5 := a4 + UintField(5, r.wxConnStatus);
    var m0 := Zero(ROOM_INFO);
    assert [] + a1 == a1;
    AddNumber(ROOM_INFO, [], m0, 0, Bool, f[0].n);
    var m1 := With(m0, 0, f[0]);
    AddText(ROOM_INFO, a1, m1, 1, r.roomId);
    var m2 := With(m1, 1, f[1]);
    AddText(ROOM_INFO, a2, m2, 2, r.originalMd5);
    var m3 := With(m2, 2, f[2]);
    AddNumber(ROOM_INFO, a3, m3, 3, Uint32, r.roomStatus);
    var m4 := With(m3, 3, f[3]);
    AddNumber(ROOM_INFO, a4, m4, 4, Uint32, r.wxConnStatus);
    var m5 := With(m4, 4, f[4]);
    AddNumber(ROOM_INFO, a5, m5, 5, Uint32, r.devConnStatus);
    SixFields(m0.fields, f);
  }

  lemma SixFields(z: seq<Value>, f: seq<Value>)
    requires |z| == |f| == 6
    ensures z[0 := f[0]][1 := f[1]][2 := f[2]][3 := f[3]][4 := f[4]][5 := f[5]] == f
  {
  }

  /** encodeListedDebugMessageCodex: without `after`. */
  function ListedBytes(m: Listed): seq<byte> {
    UintField(1, m.seqNo) + BytesField(3, m.category) + BytesField(4, m.data)
    + UintField(5, m.compressAlgo) + UintField(6, m.originalSize)
  }

  method EncodeListedDebugMessageCodex(m: Listed) returns (out: seq<byte>)
    ensures out == ListedBytes(m)
  {
    var b := new Buffer();
    PutU(b, 1, m.seqNo);
    PutB(b, 3, m.category);
    PutB(b, 4, m.data);
    PutU(b, 5, m.compressAlgo);
    PutU(b, 6, m.originalSize);
    return b.data;
  }

  lemma ListedRead(m: Listed)
    requires Fits(ListedBytes(m))
    ensures Decode(DEBUG_MESSAGE, ListedBytes(m)) == Some(ListedStruct(m.(after := 0)))
  {
    ListedWellFormed();
    DecodeNothing(DEBUG_MESSAGE);
    var a1 := UintField(1, m.seqNo);
    var a2 := a1 + BytesField(3, m.category);
    var a3 := a2 + BytesField(4, m.data);
    var a4 := a3 + UintField(5, m.compressAlgo);
    var m0 := Zero(DEBUG_MESSAGE);
    assert [] + a1 == a1;
    AddNumber(DEBUG_MESSAGE, [], m0, 0, Uint32, m.seqNo);
    var m1 := With(m0, 0, Num(m.seqNo));
    AddText(DEBUG_MESSAGE, a1, m1, 2, m.category);
    var m2 := With(m1, 2, Str(m.category));
    AddBlob(DEBUG_MESSAGE, a2, m2, 3, m.data);
    var m3 := With(m2, 3, BlobValue(m.data));
    AddNumber(DEBUG_MESSAGE, a3, m3, 4, Uint32, m.compressAlgo);
    var m4 := With(m3, 4, Num(m.compressAlgo));
    AddNumber(DEBUG_MESSAGE, a4, m4, 5, Uint32, m.originalSize);
    assert With(m4, 5, Num(m.originalSize)).fields == ListedStruct(m.(after := 0)).fields;
  }

  /** EncodeDebugMessage: every field, zero or not. */
  function DebugBytes(m: Listed): seq<byte> {
    UintField(1, m.seqNo) + UintField(2, m.after) + BytesField(3, m.category) + BytesField(4, m.data)
    + UintField(5, m.compressAlgo) + UintField(6, m.originalSize)
  }

  method EncodeDebugMessage(m: Listed) returns (out: seq<byte>)
    ensures out == DebugBytes(m)
  {
    var b := new Buffer();
    PutU(b, 1, m.seqNo);
    assert b.data == UintField(1, m.seqNo);
    PutU(b, 2, m.after);
    PutB(b, 3, m.category);
    PutB(b, 4, m.data);
    PutU(b, 5, m.compressAlgo);
    PutU(b, 6, m.originalSize);
    return b.data;
  }

  lemma DebugRead(m: Listed)
    requires Fits(DebugBytes(m))
    ensures Decode(DEBUG_MESSAGE, DebugBytes(m)) == Some(ListedStruct(m))
  {
    ListedWellFormed();
    DecodeNothing(DEBUG_MESSAGE);
    var a1 := UintField(1, m.seqNo);
    var a2 := a1 + UintField(2, m.after);
    var a3 := a2 + BytesField(3, m.category);
    var a4 := a3 + BytesField(4, m.data);
    var a5 := a4 + UintField(5, m.compressAlgo);
    var m0 := Zero(DEBUG_MESSAGE);
    assert [] + a1 == a1;
    AddNumber(DEBUG_MESSAGE, [], m0, 0, Uint32, m.seqNo);
    var m1 := With(m0, 0, Num(m.seqNo));
    AddNumber(DEBUG_MESSAGE, a1, m1, 1, Uint32, m.after);
    var m2 := With(m1, 1, Num(m.after));
    AddText(DEBUG_MESSAGE, a2, m2, 2, m.category);
    var m3 := With(m2, 2, Str(m.category));
    AddBlob(DEBUG_MESSAGE, a3, m3, 3, m.data);
    var m4 := With(m3, 3, BlobValue(m.data));
    AddNumber(DEBUG_MESSAGE, a4, m4, 4, Uint32, m.compressAlgo);
    var m5 := With(m4, 4, Num(m.compressAlgo));
    AddNumber(DEBUG_MESSAGE, a5, m5, 5, Uint32, m.originalSize);
    assert With(m5, 5, Num(m.originalSize)).fields == ListedStruct(m).fields;
  }

  /** What EncodeDebugMessage writes is decoded, and whatever DecodeDebugMessage may return for it is the message written. */
  lemma DebugMessageRoundTrip(m: Listed, r: DebugMessage)
    requires Fits(DebugBytes(m))
    ensures Decode(DEBUG_MESSAGE, DebugBytes(m)).Some?
    ensures IsDebug(r, Decode(DEBUG_MESSAGE, DebugBytes(m)).value)
            <==> r == DebugMessage(m.seqNo, m.after, m.category, m.data, m.compressAlgo, m.originalSize)
  {
    DebugRead(m);
  }

  // ---------------------------------------------------------------- messages of a list, and optional parts

  /** The repeated field of listed messages, as the encoders write it. */
  function ListBytes(number: nat, messages: seq<Listed>): seq<byte> {
    if messages == [] then []
    else
      var n := |messages| - 1;
      ListBytes(number, messages[..n]) + BytesField(number, ListedBytes(messages[n]))
  }

  method PutList(b: Buffer, number: nat, messages: seq<Listed>)
    modifies b
    ensures b.data == old(b.data) + ListBytes(number, messages)
  {
    for i := 0 to |messages|
      invariant b.data == old(b.data) + ListBytes(number, messages[..i])
    {
      var inner := EncodeListedDebugMessageCodex(messages[i]);
      PutB(b, number, inner);
      assert messages[..i + 1][..i] == messages[..i];
      Associative(old(b.data), ListBytes(number, messages[..i]), BytesField(number, inner));
    }
    assert messages[..|messages|] == messages;
  }

  lemma Associative(a: seq<byte>, b: seq<byte>, c: seq<byte>)
    ensures a + b + c == a + (b + c)
  {
  }

  /** The list as it arrives: `after` is lost. */
  function Arrived(messages: seq<Listed>): seq<Listed> {
    if messages == [] then [] else Arrived(messages[..|messages| - 1]) + [messages[|messages| - 1].(after := 0)]
  }

  function ListItems(messages: seq<Listed>): seq<Value> {
    if messages == [] then [] else ListItems(messages[..|messages| - 1]) + [Sub(ListedStruct(messages[|messages| - 1]))]
  }

  lemma ArrivedMore(messages: seq<Listed>, n: nat)
    requires n < |messages|
    ensures ListItems(Arrived(messages[..n + 1])) == ListItems(Arrived(messages[..n])) + [Sub(ListedStruct(messages[n].(after := 0)))]
  {
    assert messages[..n + 1][..n] == messages[..n];
    var more := Arrived(messages[..n + 1]);
    assert more[..|more| - 1] == Arrived(messages[..n]);
  }

  lemma {:induction false} AddList(schema: Schema, a: seq<byte>, m: Message, k: nat, messages: seq<Listed>, n: nat)
    requires HasField(schema, k, ChildList(DEBUG_MESSAGE)) && Decode(schema, a) == Some(m)
    requires |m.fields| == |schema.fields| && m.fields[k] == Many([]) && n <= |messages|
    requires Fits(ListBytes(schema.fields[k].number, messages[..n]))
    ensures Decode(schema, a + ListBytes(schema.fields[k].number, messages[..n]))
            == Some(With(m, k, Many(ListItems(Arrived(messages[..n])))))
  {
    var number := schema.fields[k].number;
    if n == 0 {
      assert a + [] == a;
      assert m.fields[k := Many([])] == m.fields;
    } else {
      var before, item := ListBytes(number, messages[..n - 1]), ListedBytes(messages[n - 1]);
      assert messages[..n][..n - 1] == messages[..n - 1];
      AddList(schema, a, m, k, messages, n - 1);
      ListedRead(messages[n - 1]);
      ArrivedMore(messages, n - 1);
      var m1 := With(m, k, Many(ListItems(Arrived(messages[..n - 1]))));
      AddItem(schema, a + before, m1, k, DEBUG_MESSAGE, item, ListedStruct(messages[n - 1].(after := 0)),
              ListItems(Arrived(messages[..n - 1])));
      Associative(a, before, BytesField(number, item));
      WithTwice(m, k, Many(ListItems(Arrived(messages[..n - 1]))), Many(ListItems(Arrived(messages[..n]))));
    }
  }

  lemma WithTwice(m: Message, k: nat, v: Value, w: Value)
    requires k < |m.fields|
    ensures With(With(m, k, v), k, w) == With(m, k, w)
  {
  }

  /** An optional base response: absent, or in field 1. */
  function BasePart(base: Option<BaseResp>): seq<byte> {
    match base case None => [] case Some(r) => BytesField(1, BaseBytes(r))
  }

  function BaseValue(base: Option<BaseResp>): Value {
    match base case None => Absent case Some(r) => Sub(BaseStruct(r))
  }

  lemma AddBase(schema: Schema, base: Option<BaseResp>)
    requires HasField(schema, 0, Child(BASE_RESP)) && schema.fields[0].number == 1 && Fits(BasePart(base))
    ensures Decode(schema, BasePart(base)) == Some(With(Zero(schema), 0, BaseValue(base)))
  {
    DecodeNothing(schema);
    match base
    case None => assert Zero(schema).fields[0 := Absent] == Zero(schema).fields;
    case Some(r) =>
      BaseRead(r);
      AddChild(schema, [], Zero(schema), 0, BASE_RESP, BaseBytes(r), BaseStruct(r));
      assert [] + BytesField(1, BaseBytes(r)) == BytesField(1, BaseBytes(r));
  }

  // ---------------------------------------------------------------- client responses

  const CMD_LOGIN: uint32 := 1002
  const CMD_HEARTBEAT: uint32 := 1001
  const CMD_JOIN_ROOM: uint32 := 1003
  const CMD_QUIT_ROOM: uint32 := 1004
  const CMD_SYNC_MESSAGE: uint32 := 1005
  const CMD_SEND_DEBUG: uint32 := 1000
  const CMD_SEND_DEBUG_PARALLEL: uint32 := 1006
  const CMD_MESSAGE_NOTIFY: uint32 := 2000
  const CMD_MESSAGE_NOTIFY_PARALLEL: uint32 := 2006
  const CMD_EVENTS: set<uint32> := {3001, 3002, 3003}

  datatype Response =
    | WxLoginResp(base: Option<BaseResp>, room: Option<RoomInfo>)
    | WxHeartBeatResp(base: Option<BaseResp>)
    | WxJoinRoomResp(base: Option<BaseResp>)
    | WxQuitRoomResp(base: Option<BaseResp>)
    | WxSyncMessageResp(base: Option<BaseResp>, messages: seq<Listed>, sendAck: uint32)
    | NewSendDebugMessageResp(base: Option<BaseResp>, minAck: uint32, maxAck: uint32)
    | MessageNotify(messages: seq<Listed>)
    | EventNotify

  /** The Go types of responses; SendDebugMessageResp is decoded only. */
  datatype Type = Login | HeartBeat | JoinRoom | QuitRoom | Sync | SendDebug | NewSendDebug | Notify | Event

  function TypeOf(r: Response): Type {
    match r
    case WxLoginResp(_, _) => Login
    case WxHeartBeatResp(_) => HeartBeat
    case WxJoinRoomResp(_) => JoinRoom
    case WxQuitRoomResp(_) => QuitRoom
    case WxSyncMessageResp(_, _, _) => Sync
    case NewSendDebugMessageResp(_, _, _) => NewSendDebug
    case MessageNotify(_) => Notify
    case EventNotify => Event
  }

  const BASE_ONLY := Schema([Field(1, Child(BASE_RESP))])
  const LOGIN_RESP := Schema([Field(1, Child(BASE_RESP)), Field(2, Child(ROOM_INFO))])
  const SYNC_RESP := Schema([Field(1, Child(BASE_RESP)), Field(2, ChildList(DEBUG_MESSAGE)), Field(3, Number(Uint32))])
  const ONE_ACK := Schema([Field(1, Child(BASE_RESP)), Field(2, Number(Uint32))])
  const TWO_ACKS := Schema([Field(1, Child(BASE_RESP)), Field(2, Number(Uint32)), Field(3, Number(Uint32))])
  const NOTIFY := Schema([Field(1, ChildList(DEBUG_MESSAGE))])

  function SchemaOf(t: Type): Schema {
    match t
    case Login => LOGIN_RESP
    case HeartBeat => BASE_ONLY
    case JoinRoom => BASE_ONLY
    case QuitRoom => BASE_ONLY
    case Sync => SYNC_RESP
    case SendDebug => ONE_ACK
    case NewSendDebug => TWO_ACKS
    case Notify => NOTIFY
    case Event => Schema([])
  }

  function Struct(r: Response): Message {
    match r
    case WxLoginResp(base, room) =>
      Message([BaseValue(base), match room case None => Absent case Some(x) => Sub(RoomStruct(x))], [])
    case WxHeartBeatResp(base) => Message([BaseValue(base)], [])
    case WxJoinRoomResp(base) => Message([BaseValue(base)], [])
    case WxQuitRoomResp(base) => Message([BaseValue(base)], [])
    case WxSyncMessageResp(base, messages, ack) => Message([BaseValue(base), Many(ListItems(messages)), Num(ack)], [])
    case NewSendDebugMessageResp(base, min, max) => Message([BaseValue(base), Num(min), Num(max)], [])
    case MessageNotify(messages) => Message([Many(ListItems(messages))], [])
    case EventNotify => Message([], [])
  }

  /** The response as it arrives: lists without `after`, and in a login no nil parts. */
  function Received(r: Response): Response {
    match r
    case WxLoginResp(base, room) =>
      WxLoginResp(Some(base.UnwrapOr(BaseResp(0, []))), Some(room.UnwrapOr(RoomInfo(false, [], [], 0, 0, 0))))
    case WxSyncMessageResp(base, messages, ack) => WxSyncMessageResp(base, Arrived(messages), ack)
    case MessageNotify(messages) => MessageNotify(Arrived(messages))
    case _ => r
  }

  lemma {:induction false} ArrivedExact(messages: seq<Listed>)
    ensures |Arrived(messages)| == |messages|
    ensures forall i | 0 <= i < |messages| ::
              var m := messages[i];
              Arrived(messages)[i] == Listed(m.seqNo, 0, m.category, m.data, m.compressAlgo, m.originalSize)
    decreases |messages|
  {
    if messages != [] {
      ArrivedExact(messages[..|messages| - 1]);
    }
  }

  /** What is lost: `after` in lists, and in a login that a part was nil. */
  lemma ReceivedExact(r: Response)
    ensures match r
            case WxLoginResp(base, room) =>
              Received(r) == WxLoginResp(
                               Some(if base == None then BaseResp(0, []) else base.value),
                               Some(if room == None then RoomInfo(false, [], [], 0, 0, 0) else room.value))
            case WxSyncMessageResp(base, messages, ack) => Received(r) == WxSyncMessageResp(base, Arrived(messages), ack)
            case MessageNotify(messages) => Received(r) == MessageNotify(Arrived(messages))
            case _ => Received(r) == r
  {
  }

  /** The payload of a response. */
  function ResponseBytes(r: Response): seq<byte> {
    match r
    case WxLoginResp(base, room) =>
      BytesField(1, match base case None => [] case Some(x) => BaseBytes(x))
      + BytesField(2, match room case None => [] case Some(x) => RoomBytes(x))
    case WxHeartBeatResp(base) => BasePart(base)
    case WxJoinRoomResp(base) => BasePart(base)
    case WxQuitRoomResp(base) => BasePart(base)
    case WxSyncMessageResp(base, messages, ack) => BasePart(base) + ListBytes(2, messages) + UintField(3, ack)
    case NewSendDebugMessageResp(base, min, max) => BasePart(base) + UintField(2, min) + UintField(3, max)
    case MessageNotify(messages) => ListBytes(1, messages)
    case EventNotify => []
  }

  lemma LoginWellFormed()
    ensures WellFormed(LOGIN_RESP)
  {
    BaseWellFormed();
    RoomWellFormed();
  }

  lemma BaseOnlyWellFormed()
    ensures WellFormed(BASE_ONLY)
  {
    BaseWellFormed();
  }

  lemma SyncWellFormed()
    ensures WellFormed(SYNC_RESP)
  {
    BaseWellFormed();
    ListedWellFormed();
  }

  lemma AcksWellFormed()
    ensures WellFormed(TWO_ACKS)
  {
    BaseWellFormed();
  }

  lemma NotifyWellFormed()
    ensures WellFormed(NOTIFY)
  {
    ListedWellFormed();
  }

  lemma BaseOrZero(base: Option<BaseResp>)
    requires base.Some? ==> Fits(BaseBytes(base.value))
    ensures Decode(BASE_RESP, match base case None => [] case Some(x) => BaseBytes(x))
            == Some(BaseStruct(base.UnwrapOr(BaseResp(0, []))))
  {
    match base
    case None =>
      DecodeNothing(BASE_RESP);
      assert Zero(BASE_RESP).fields == BaseStruct(BaseResp(0, [])).fields;
    case Some(x) => BaseRead(x);
  }

  lemma RoomOrZero(room: Option<RoomInfo>)
    requires room.Some? ==> Fits(RoomBytes(room.value))
    ensures Decode(ROOM_INFO, match room case None => [] case Some(x) => RoomBytes(x))
            == Some(RoomStruct(room.UnwrapOr(RoomInfo(false, [], [], 0, 0, 0))))
  {
    match room
    case None =>
      DecodeNothing(ROOM_INFO);
      assert Zero(ROOM_INFO).fields == RoomStruct(RoomInfo(false, [], [], 0, 0, 0)).fields;
    case Some(x) => RoomRead(x);
  }

  lemma LoginRead(r: Response)
    requires r.WxLoginResp? && Fits(ResponseBytes(r))
    ensures Decode(LOGIN_RESP, ResponseBytes(r)) == Some(Struct(Received(r)))
  {
    LoginWellFormed();
    DecodeNothing(LOGIN_RESP);
    var a := match r.base case None => [] case Some(x) => BaseBytes(x);
    var b := match r.room case None => [] case Some(x) => RoomBytes(x);
    var base, room := BaseStruct(r.base.UnwrapOr(BaseResp(0, []))), RoomStruct(r.room.UnwrapOr(RoomInfo(false, [], [], 0, 0, 0)));
    BaseOrZero(r.base);
    RoomOrZero(r.room);
    var m0 := Zero(LOGIN_RESP);
    AddChild(LOGIN_RESP, [], m0, 0, BASE_RESP, a, base);
    assert [] + BytesField(1, a) == BytesField(1, a);
    var m1 := With(m0, 0, Sub(base));
    AddChild(LOGIN_RESP, BytesField(1, a), m1, 1, ROOM_INFO, b, room);
    assert With(m1, 1, Sub(room)).fields == Struct(Received(r)).fields;
  }

  lemma BaseOnlyRead(base: Option<BaseResp>)
    requires Fits(BasePart(base))
    ensures Decode(BASE_ONLY, BasePart(base)) == Some(Message([BaseValue(base)], []))
  {
    BaseOnlyWellFormed();
    AddBase(BASE_ONLY, base);
    assert With(Zero(BASE_ONLY), 0, BaseValue(base)).fields == [BaseValue(base)];
  }

  lemma ThreeFields(m: Message, a: Value, b: Value, c: Value)
    requires |m.fields| == 3 && m.fields[0] == a && m.fields[1] == b && m.unknown == []
    ensures With(m, 2, c) == Message([a, b, c], [])
  {
    assert m.fields[2 := c] == [a, b, c];
  }

  lemma SyncRead(r: Response)
    requires r.WxSyncMessageResp? && Fits(ResponseBytes(r))
    ensures Decode(SYNC_RESP, ResponseBytes(r)) == Some(Struct(Received(r)))
  {
    SyncWellFormed();
    AddBase(SYNC_RESP, r.base);
    var m1 := With(Zero(SYNC_RESP), 0, BaseValue(r.base));
    assert r.messages[..|r.messages|] == r.messages;
    AddList(SYNC_RESP, BasePart(r.base), m1, 1, r.messages, |r.messages|);
    var m2 := With(m1, 1, Many(ListItems(Arrived(r.messages))));
    AddNumber(SYNC_RESP, BasePart(r.base) + ListBytes(2, r.messages), m2, 2, Uint32, r.sendAck);
    ThreeFields(m2, BaseValue(r.base), Many(ListItems(Arrived(r.messages))), Num(r.sendAck));
  }

  lemma AcksRead(r: Response)
    requires r.NewSendDebugMessageResp? && Fits(ResponseBytes(r))
    ensures Decode(TWO_ACKS, ResponseBytes(r)) == Some(Struct(Received(r)))
  {
    AcksWellFormed();
    AddBase(TWO_ACKS, r.base);
    var m1 := With(Zero(TWO_ACKS), 0, BaseValue(r.base));
    AddNumber(TWO_ACKS, BasePart(r.base), m1, 1, Uint32, r.minAck);
    var m2 := With(m1, 1, Num(r.minAck));
    AddNumber(TWO_ACKS, BasePart(r.base) + UintField(2, r.minAck), m2, 2, Uint32, r.maxAck);
    assert With(m2, 2, Num(r.maxAck)).fields == Struct(Received(r)).fields;
  }

  lemma NotifyRead(messages: seq<Listed>)
    requires Fits(ListBytes(1, messages))
    ensures Decode(NOTIFY, ListBytes(1, messages)) == Some(Message([Many(ListItems(Arrived(messages)))], []))
  {
    NotifyWellFormed();
    DecodeNothing(NOTIFY);
    assert messages[..|messages|] == messages;
    AddList(NOTIFY, [], Zero(NOTIFY), 0, messages, |messages|);
    assert [] + ListBytes(1, messages) == ListBytes(1, messages);
    assert With(Zero(NOTIFY), 0, Many(ListItems(Arrived(messages)))).fields == [Many(ListItems(Arrived(messages)))];
  }

  /** Every response is read back from its payload, up to what Received says is lost. */
  lemma ResponseRead(r: Response)
    requires Fits(ResponseBytes(r))
    ensures Decode(SchemaOf(TypeOf(r)), ResponseBytes(r)) == Some(Struct(Received(r)))
  {
    if r.WxLoginResp? {
      LoginRead(r);
    } else if r.WxSyncMessageResp? {
      SyncRead(r);
    } else if r.NewSendDebugMessageResp? {
      AcksRead(r);
    } else {
      SmallRead(r);
    }
  }

  lemma SmallRead(r: Response)
    requires r.WxHeartBeatResp? || r.WxJoinRoomResp? || r.WxQuitRoomResp? || r.MessageNotify? || r.EventNotify?
    requires Fits(ResponseBytes(r))
    ensures Decode(SchemaOf(TypeOf(r)), ResponseBytes(r)) == Some(Struct(Received(r)))
  {
    if r.MessageNotify? {
      MessageNotifyRead(r);
    } else if r.EventNotify? {
      DecodeNothing(Schema([]));
    } else {
      BaseOnlyRead(r.base);
    }
  }

  lemma MessageNotifyRead(r: Response)
    requires r.MessageNotify? && Fits(ResponseBytes(r))
    ensures Decode(SchemaOf(TypeOf(r)), ResponseBytes(r)) == Some(Struct(Received(r)))
  {
    NotifyRead(r.messages);
  }

  // ---------------------------------------------------------------- envelopes

  const DATA_FORMAT := Schema([Field(1, Number(Uint32)), Field(2, Text), Field(3, Blob)])

  /** encodeDataFormatCodex. */
  function EnvelopeBytes(cmd: uint32, uuid: seq<byte>, payload: seq<byte>): seq<byte> {
    UintField(1, cmd) + BytesField(2, uuid) + BytesField(3, payload)
  }

  method EncodeDataFormatCodex(cmd: uint32, uuid: seq<byte>, payload: seq<byte>) returns (out: seq<byte>)
    ensures out == EnvelopeBytes(cmd, uuid, payload)
  {
    var b := new Buffer();
    PutU(b, 1, cmd);
    PutB(b, 2, uuid);
    PutB(b, 3, payload);
    return b.data;
  }

  lemma EnvelopeWellFormed()
    ensures WellFormed(DATA_FORMAT)
  {
  }

  /** DecodeDataFormat recovers command, UUID and payload; an empty payload comes back as nil. */
  lemma EnvelopeRead(cmd: uint32, uuid: seq<byte>, payload: seq<byte>)
    requires Fits(EnvelopeBytes(cmd, uuid, payload))
    ensures Decode(DATA_FORMAT, EnvelopeBytes(cmd, uuid, payload)) == Some(Message([Num(cmd), Str(uuid), BlobValue(payload)], []))
  {
    EnvelopeWellFormed();
    DecodeNothing(DATA_FORMAT);
    var a1 := UintField(1, cmd);
    var m0 := Zero(DATA_FORMAT);
    assert [] + a1 == a1;
    AddNumber(DATA_FORMAT, [], m0, 0, Uint32, cmd);
    var m1 := With(m0, 0, Num(cmd));
    AddText(DATA_FORMAT, a1, m1, 1, uuid);
    var m2 := With(m1, 1, Str(uuid));
    AddBlob(DATA_FORMAT, a1 + BytesField(2, uuid), m2, 2, payload);
    assert With(m2, 2, BlobValue(payload)).fields == [Num(cmd), Str(uuid), BlobValue(payload)];
  }

  /** The type EncodeClientResponseDataFormat expects under a command. */
  function Expected(cmd: uint32): Option<Type> {
    if cmd == CMD_LOGIN then Some(Login)
    else if cmd == CMD_HEARTBEAT then Some(HeartBeat)
    else if cmd == CMD_JOIN_ROOM then Some(JoinRoom)
    else if cmd == CMD_QUIT_ROOM then Some(QuitRoom)
    else if cmd == CMD_SYNC_MESSAGE then Some(Sync)
    else if cmd == CMD_SEND_DEBUG_PARALLEL then Some(NewSendDebug)
    else if cmd == CMD_MESSAGE_NOTIFY_PARALLEL then Some(Notify)
    else if cmd in CMD_EVENTS then Some(Event)
    else None
  }

  /** The commands by number, each with the one response that answers it. */
  predicate Answers(cmd: nat, r: Response) {
    || (cmd == 1001 && r.WxHeartBeatResp?) || (cmd == 1002 && r.WxLoginResp?) || (cmd == 1003 && r.WxJoinRoomResp?)
    || (cmd == 1004 && r.WxQuitRoomResp?) || (cmd == 1005 && r.WxSyncMessageResp?) || (cmd == 1006 && r.NewSendDebugMessageResp?)
    || (cmd == 2006 && r.MessageNotify?) || (cmd in {3001, 3002, 3003} && r.EventNotify?)
  }

  lemma ExpectedExact(cmd: uint32, r: Response)
    ensures Expected(cmd) == Some(TypeOf(r)) <==> Answers(cmd, r)
  {
  }

  /** EncodeClientResponseDataFormat: None for a wrong type or an unknown command. */
  method EncodeClientResponseDataFormat(cmd: uint32, uuid: seq<byte>, r: Response) returns (out: Option<seq<byte>>)
    ensures out == if Expected(cmd) == Some(TypeOf(r)) then Some(EnvelopeBytes(cmd, uuid, ResponseBytes(r))) else None
    ensures out.Some? <==> Answers(cmd, r)
  {
    ExpectedExact(cmd, r);
    if Expected(cmd) != Some(TypeOf(r)) { return None; }
    var payload := EncodePayload(r);
    var d := EncodeDataFormatCodex(cmd, uuid, payload);
    return Some(d);
  }

  method PutBase(b: Buffer, base: Option<BaseResp>)
    modifies b
    ensures b.data == old(b.data) + BasePart(base)
  {
    if base.Some? {
      var inner := EncodeBaseResponseCodex(base);
      PutB(b, 1, inner);
    }
  }

  method EncodePayload(r: Response) returns (out: seq<byte>)
    ensures out == ResponseBytes(r)
  {
    var b := new Buffer();
    match r {
      case WxLoginResp(_, _) => PutLogin(b, r);
      case WxHeartBeatResp(base) => PutBase(b, base);
      case WxJoinRoomResp(base) => PutBase(b, base);
      case WxQuitRoomResp(base) => PutBase(b, base);
      case WxSyncMessageResp(_, _, _) => PutSync(b, r);
      case NewSendDebugMessageResp(_, _, _) => PutAcks(b, r);
      case MessageNotify(messages) => PutList(b, 1, messages);
      case EventNotify =>
    }
    return b.data;
  }

  method PutLogin(b: Buffer, r: Response)
    requires r.WxLoginResp? && b.data == []
    modifies b
    ensures b.data == ResponseBytes(r)
  {
    var first := EncodeBaseResponseCodex(r.base);
    PutB(b, 1, first);
    assert b.data == BytesField(1, first);
    var second := EncodeRoomInfoCodex(r.room);
    PutB(b, 2, second);
  }

  method PutSync(b: Buffer, r: Response)
    requires r.WxSyncMessageResp? && b.data == []
    modifies b
    ensures b.data == ResponseBytes(r)
  {
    PutBase(b, r.base);
    assert b.data == BasePart(r.base);
    PutList(b, 2, r.messages);
    assert b.data == BasePart(r.base) + ListBytes(2, r.messages);
    PutU(b, 3, r.sendAck);
  }

  method PutAcks(b: Buffer, r: Response)
    requires r.NewSendDebugMessageResp? && b.data == []
    modifies b
    ensures b.data == ResponseBytes(r)
  {
    PutBase(b, r.base);
    PutU(b, 2, r.minAck);
    PutU(b, 3, r.maxAck);
  }

  /** The type DecodeResponsePayload picks for the client role. */
  function ClientType(cmd: uint32): Option<Type> {
    if cmd in CMD_EVENTS then Some(Event)
    else if cmd == CMD_HEARTBEAT then Some(HeartBeat)
    else if cmd == CMD_LOGIN then Some(Login)
    else if cmd == CMD_JOIN_ROOM then Some(JoinRoom)
    else if cmd == CMD_QUIT_ROOM then Some(QuitRoom)
    else if cmd == CMD_SYNC_MESSAGE then Some(Sync)
    else if cmd == CMD_SEND_DEBUG then Some(SendDebug)
    else if cmd == CMD_SEND_DEBUG_PARALLEL then Some(NewSendDebug)
    else if cmd == CMD_MESSAGE_NOTIFY || cmd == CMD_MESSAGE_NOTIFY_PARALLEL then Some(Notify)
    else None
  }

  /** DecodeResponsePayload for the client role. */
  function DecodeResponsePayload(cmd: uint32, data: seq<byte>): Option<(Type, Message)> {
    match ClientType(cmd)
    case None => None
    case Some(t) => match Decode(SchemaOf(t), data) case None => None case Some(m) => Some((t, m))
  }

  /**
   The commands a payload is decoded under, by number, and the struct each is decoded as: a base
   response alone, with a room, with a list and an acknowledgement, or with one or two of these;
   a list alone; nothing.
   */
  lemma DecodesExactly(cmd: uint32, data: seq<byte>, t: Type, m: Message)
    ensures DecodeResponsePayload(cmd, data) == Some((t, m))
            <==> || (cmd == 1001 && t == HeartBeat && Decode(BASE_ONLY, data) == Some(m))
                 || (cmd == 1002 && t == Login && Decode(LOGIN_RESP, data) == Some(m))
                 || (cmd == 1003 && t == JoinRoom && Decode(BASE_ONLY, data) == Some(m))
                 || (cmd == 1004 && t == QuitRoom && Decode(BASE_ONLY, data) == Some(m))
                 || (cmd == 1005 && t == Sync && Decode(SYNC_RESP, data) == Some(m))
                 || (cmd == 1000 && t == SendDebug && Decode(ONE_ACK, data) == Some(m))
                 || (cmd == 1006 && t == NewSendDebug && Decode(TWO_ACKS, data) == Some(m))
                 || (cmd in {2000, 2006} && t == Notify && Decode(NOTIFY, data) == Some(m))
                 || (cmd in {3001, 3002, 3003} && t == Event && Decode(Schema([]), data) == Some(m))
  {
  }

  /** A response that only arrives: SendDebugMessageResp. */
  lemma AckRead(base: Option<BaseResp>, ack: uint32)
    requires Fits(BasePart(base) + UintField(2, ack))
    ensures Decode(ONE_ACK, BasePart(base) + UintField(2, ack)) == Some(Message([BaseValue(base), Num(ack)], []))
  {
    BaseWellFormed();
    AddBase(ONE_ACK, base);
    var m1 := With(Zero(ONE_ACK), 0, BaseValue(base));
    AddNumber(ONE_ACK, BasePart(base), m1, 1, Uint32, ack);
    assert With(m1, 1, Num(ack)).fields == [BaseValue(base), Num(ack)];
  }

  /**
   For every command and response that is encoded at all, DecodeDataFormat and then
   DecodeResponsePayload recover the response, up to what Received says is lost.
   */
  lemma ClientResponseRoundTrip(cmd: uint32, uuid: seq<byte>, r: Response)
    requires Expected(cmd) == Some(TypeOf(r)) && Fits(EnvelopeBytes(cmd, uuid, ResponseBytes(r)))
    ensures var envelope := Decode(DATA_FORMAT, EnvelopeBytes(cmd, uuid, ResponseBytes(r)));
            && envelope == Some(Message([Num(cmd), Str(uuid), BlobValue(ResponseBytes(r))], []))
            && DecodeResponsePayload(cmd, BytesOf(envelope.value.fields[2])) == Some((TypeOf(r), Struct(Received(r))))
  {
    EnvelopeRead(cmd, uuid, ResponseBytes(r));
    ResponseRead(r);
    TypesAgree(cmd);
  }

  lemma TypesAgree(cmd: uint32)
    ensures Expected(cmd).Some? ==> ClientType(cmd) == Expected(cmd)
  {
  }

  // ---------------------------------------------------------------- developer requests

  const BASE_REQ := Schema([Field(1, Number(Uint32))])
  const SEND_REQ := Schema([Field(1, Child(BASE_REQ)), Field(2, ChildList(DEBUG_MESSAGE)), Field(3, Number(Uint32))])

  const CMD_DEV_SEND_DEBUG: uint32 := 2000
  const CMD_DEV_SEND_DEBUG_PARALLEL: uint32 := 2006

  /** SendDebugMessageReq and NewSendDebugMessageReq, whose fields are the same; the base keeps its unknown fields. */
  datatype SendReq = SendReq(parallel: bool, base: Option<Message>, messages: seq<Listed>, recvAck: uint32)

  /** The base is a BaseReq; its UnknownFields may hold any bytes. */
  predicate TypedReq(r: SendReq) { r.base.Some? ==> TypedMessage(BASE_REQ, r.base.value) }

  /** They hold whole unknown fields, as they do in whatever was decoded. */
  predicate CleanReq(r: SendReq) { r.base.Some? ==> CanonicalMessage(BASE_REQ, r.base.value) }

  function ReqBasePart(r: SendReq): seq<byte>
    requires TypedReq(r)
  {
    match r.base case None => [] case Some(m) => BytesField(1, Marshal(BASE_REQ, m))
  }

  function ReqBaseValue(r: SendReq): Value { match r.base case None => Absent case Some(m) => Sub(m) }

  function SendReqBytes(r: SendReq): seq<byte>
    requires TypedReq(r)
  {
    ReqBasePart(r) + ListBytes(2, r.messages) + UintField(3, r.recvAck)
  }

  /** The developer's commands: a request of the matching type, or a notification under the parallel command. */
  datatype Outgoing = Request(request: SendReq) | Notification(messages: seq<Listed>) | OtherValue

  function OutgoingBytes(cmd: uint32, v: Outgoing, parallelNotify: bool): Option<seq<byte>>
    requires v.Request? ==> TypedReq(v.request)
  {
    if cmd == CMD_DEV_SEND_DEBUG && v.Request? && !v.request.parallel then Some(SendReqBytes(v.request))
    else if cmd == CMD_DEV_SEND_DEBUG_PARALLEL && parallelNotify && v.Notification? then Some(ListBytes(1, v.messages))
    else if cmd == CMD_DEV_SEND_DEBUG_PARALLEL && !parallelNotify && v.Request? && v.request.parallel then Some(SendReqBytes(v.request))
    else None
  }

  /** EncodeDeveloperOutgoingDataFormat. */
  method EncodeDeveloperOutgoingDataFormat(cmd: uint32, uuid: seq<byte>, v: Outgoing, parallelNotify: bool)
    returns (out: Option<seq<byte>>)
    requires v.Request? ==> TypedReq(v.request)
    ensures out == match OutgoingBytes(cmd, v, parallelNotify) case None => None case Some(p) => Some(EnvelopeBytes(cmd, uuid, p))
    ensures out.Some? <==>
              || (cmd == 2000 && v.Request? && !v.request.parallel)
              || (cmd == 2006 && !parallelNotify && v.Request? && v.request.parallel)
              || (cmd == 2006 && parallelNotify && v.Notification?)
  {
    var payload;
    if cmd == CMD_DEV_SEND_DEBUG {
      if !v.Request? || v.request.parallel { return None; }
      payload := EncodeSendReq(v.request);
    } else if cmd == CMD_DEV_SEND_DEBUG_PARALLEL {
      if parallelNotify {
        if !v.Notification? { return None; }
        payload := EncodeMessageNotifyCodex(v.messages);
      } else {
        if !v.Request? || !v.request.parallel { return None; }
        payload := EncodeSendReq(v.request);
      }
    } else {
      return None;
    }
    var d := EncodeDataFormatCodex(cmd, uuid, payload);
    return Some(d);
  }

  method EncodeMessageNotifyCodex(messages: seq<Listed>) returns (out: seq<byte>)
    ensures out == ListBytes(1, messages)
  {
    var b := new Buffer();
    PutList(b, 1, messages);
    return b.data;
  }

  method EncodeSendReq(r: SendReq) returns (out: seq<byte>)
    requires TypedReq(r)
    ensures out == SendReqBytes(r)
  {
    var b := new Buffer();
    PutSendReq(b, r);
    return b.data;
  }

  method PutSendReq(b: Buffer, r: SendReq)
    requires TypedReq(r) && b.data == []
    modifies b
    ensures b.data == SendReqBytes(r)
  {
    if r.base.Some? {
      var inner := MarshalMessage(BASE_REQ, r.base.value);
      PutB(b, 1, inner);
    }
    assert b.data == ReqBasePart(r);
    PutList(b, 2, r.messages);
    assert b.data == ReqBasePart(r) + ListBytes(2, r.messages);
    PutU(b, 3, r.recvAck);
  }

  function SendReqStruct(r: SendReq): Message {
    Message([ReqBaseValue(r), Many(ListItems(r.messages)), Num(r.recvAck)], [])
  }

  lemma SendReqWellFormed()
    ensures WellFormed(BASE_REQ) && WellFormed(SEND_REQ)
  {
    ListedWellFormed();
  }

  /**
   DecodeRequestPayload for the developer role, whose two commands hold structs of one shape,
   recovers a request with its base, unknown fields included, and all but `after` of its list.
   */
  lemma DeveloperRequestRoundTrip(cmd: uint32, uuid: seq<byte>, r: SendReq)
    requires CleanReq(r) && OutgoingBytes(cmd, Request(r), false).Some? && Fits(EnvelopeBytes(cmd, uuid, SendReqBytes(r)))
    ensures Decode(DATA_FORMAT, EnvelopeBytes(cmd, uuid, SendReqBytes(r)))
            == Some(Message([Num(cmd), Str(uuid), BlobValue(SendReqBytes(r))], []))
    ensures Decode(SEND_REQ, SendReqBytes(r)) == Some(SendReqStruct(r.(messages := Arrived(r.messages))))
  {
    EnvelopeRead(cmd, uuid, SendReqBytes(r));
    SendReqRead(r);
  }

  lemma SendReqRead(r: SendReq)
    requires CleanReq(r) && Fits(SendReqBytes(r))
    ensures Decode(SEND_REQ, SendReqBytes(r)) == Some(SendReqStruct(r.(messages := Arrived(r.messages))))
  {
    SendReqWellFormed();
    var a := ReqBasePart(r);
    AddReqBase(r);
    var m1 := With(Zero(SEND_REQ), 0, ReqBaseValue(r));
    assert r.messages[..|r.messages|] == r.messages;
    AddList(SEND_REQ, a, m1, 1, r.messages, |r.messages|);
    var m2 := With(m1, 1, Many(ListItems(Arrived(r.messages))));
    AddNumber(SEND_REQ, a + ListBytes(2, r.messages), m2, 2, Uint32, r.recvAck);
    ThreeFields(m2, ReqBaseValue(r), Many(ListItems(Arrived(r.messages))), Num(r.recvAck));
  }

  lemma AddReqBase(r: SendReq)
    requires CleanReq(r) && Fits(ReqBasePart(r))
    ensures Decode(SEND_REQ, ReqBasePart(r)) == Some(With(Zero(SEND_REQ), 0, ReqBaseValue(r)))
  {
    SendReqWellFormed();
    DecodeNothing(SEND_REQ);
    var m0 := Zero(SEND_REQ);
    match r.base {
      case None => assert m0.fields[0 := Absent] == m0.fields;
      case Some(m) =>
        RoundTrip(BASE_REQ, m);
        AddChild(SEND_REQ, [], m0, 0, BASE_REQ, Marshal(BASE_REQ, m), m);
        assert [] + ReqBasePart(r) == ReqBasePart(r);
    }
  }

  /** A notification a developer sends is what a client reads as one. */
  lemma NotificationRoundTrip(uuid: seq<byte>, messages: seq<Listed>)
    requires Fits(EnvelopeBytes(CMD_DEV_SEND_DEBUG_PARALLEL, uuid, ListBytes(1, messages)))
    ensures OutgoingBytes(CMD_DEV_SEND_DEBUG_PARALLEL, Notification(messages), true) == Some(ListBytes(1, messages))
    ensures Decode(DATA_FORMAT, EnvelopeBytes(CMD_DEV_SEND_DEBUG_PARALLEL, uuid, ListBytes(1, messages)))
            == Some(Message([Num(CMD_DEV_SEND_DEBUG_PARALLEL), Str(uuid), BlobValue(ListBytes(1, messages))], []))
    ensures DecodeResponsePayload(CMD_DEV_SEND_DEBUG_PARALLEL, ListBytes(1, messages))
            == Some((Notify, Struct(MessageNotify(Arrived(messages)))))
  {
    EnvelopeRead(CMD_DEV_SEND_DEBUG_PARALLEL, uuid, ListBytes(1, messages));
    NotifyPayloadRead(messages);
  }

  lemma NotifyPayloadRead(messages: seq<Listed>)
    requires Fits(ListBytes(1, messages))
    ensures DecodeResponsePayload(CMD_DEV_SEND_DEBUG_PARALLEL, ListBytes(1, messages))
            == Some((Notify, Struct(MessageNotify(Arrived(messages)))))
  {
    NotifyRead(messages);
    PayloadIs(CMD_DEV_SEND_DEBUG_PARALLEL, Notify, ListBytes(1, messages), Message([Many(ListItems(Arrived(messages)))], []));
  }

  lemma PayloadIs(cmd: uint32, t: Type, data: seq<byte>, m: Message)
    requires ClientType(cmd) == Some(t) && Decode(SchemaOf(t), data) == Some(m)
    ensures DecodeResponsePayload(cmd, data) == Some((t, m))
  {
  }
}
