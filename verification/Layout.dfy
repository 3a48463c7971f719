/**
 The bytes of the WMPF messages, spelled out: every field under its literal key, in order,
 zeros and empty strings included where the encoders write them.
 */
module Layout {
  import opened Prelude
  import opened Wire
  import opened Schema
  import opened Transport

  /** A key byte and a varint. */
  function U(key: byte, n: nat): seq<byte> { [key] + Varint(n) }

  /** A key byte, a length and that many bytes. */
  function B(key: byte, p: seq<byte>): seq<byte> { [key] + (Varint(|p|) + p) }

  lemma UIs(number: nat, key: byte, n: nat)
    requires key == number * 8 < 128
    ensures UintField(number, n) == U(key, n)
  {
  }

  lemma BIs(number: nat, key: byte, p: seq<byte>)
    requires key == number * 8 + 2 < 128
    ensures BytesField(number, p) == B(key, p)
  {
    assert [key] + Varint(|p|) + p == [key] + (Varint(|p|) + p);
  }

  /** A negative code as the 64 bits of its sign-extended form. */
  lemma BaseLayout(r: BaseResp)
    ensures BaseBytes(r) == U(0x08, if r.errcode < 0 then r.errcode + TWO_64 else r.errcode) + B(0x12, r.errmsg)
  {
    UIs(1, 0x08, Widen(r.errcode));
    BIs(2, 0x12, r.errmsg);
  }

  lemma RoomLayout(r: RoomInfo)
    ensures RoomBytes(r)
            == U(0x08, if r.joinRoom then 1 else 0) + B(0x12, r.roomId) + B(0x1a, r.originalMd5)
               + U(0x20, r.roomStatus) + U(0x28, r.wxConnStatus) + U(0x30, r.devConnStatus)
  {
    UIs(1, 0x08, if r.joinRoom then 1 else 0);
    BIs(2, 0x12, r.roomId);
    BIs(3, 0x1a, r.originalMd5);
    UIs(4, 0x20, r.roomStatus);
    UIs(5, 0x28, r.wxConnStatus);
    UIs(6, 0x30, r.devConnStatus);
  }

  /** In a list, field 2 is left out. */
  lemma ListedLayout(m: Listed)
    ensures ListedBytes(m)
            == U(0x08, m.seqNo) + B(0x1a, m.category) + B(0x22, m.data) + U(0x28, m.compressAlgo) + U(0x30, m.originalSize)
  {
    UIs(1, 0x08, m.seqNo);
    BIs(3, 0x1a, m.category);
    BIs(4, 0x22, m.data);
    UIs(5, 0x28, m.compressAlgo);
    UIs(6, 0x30, m.originalSize);
  }

  lemma DebugLayout(m: Listed)
    ensures DebugBytes(m)
            == U(0x08, m.seqNo) + U(0x10, m.after) + B(0x1a, m.category) + B(0x22, m.data)
               + U(0x28, m.compressAlgo) + U(0x30, m.originalSize)
  {
    UIs(1, 0x08, m.seqNo);
    UIs(2, 0x10, m.after);
    BIs(3, 0x1a, m.category);
    BIs(4, 0x22, m.data);
    UIs(5, 0x28, m.compressAlgo);
    UIs(6, 0x30, m.originalSize);
  }

  lemma EnvelopeLayout(cmd: uint32, uuid: seq<byte>, payload: seq<byte>)
    ensures EnvelopeBytes(cmd, uuid, payload) == U(0x08, cmd) + B(0x12, uuid) + B(0x1a, payload)
  {
    UIs(1, 0x08, cmd);
    BIs(2, 0x12, uuid);
    BIs(3, 0x1a, payload);
  }

  /** The messages of a list one after the other, each under the same key. */
  function Each(key: byte, messages: seq<Listed>): seq<byte> {
    if messages == [] then [] else B(key, ListedBytes(messages[0])) + Each(key, messages[1..])
  }

  lemma {:induction false} EachMore(key: byte, messages: seq<Listed>, m: Listed)
    ensures Each(key, messages + [m]) == Each(key, messages) + B(key, ListedBytes(m))
    decreases |messages|
  {
    if messages == [] {
      assert [m][1..] == [] && [] + [m] == [m];
    } else {
      EachMore(key, messages[1..], m);
      assert (messages + [m])[1..] == messages[1..] + [m];
      Associative(B(key, ListedBytes(messages[0])), Each(key, messages[1..]), B(key, ListedBytes(m)));
    }
  }

  lemma ListLast(number: nat, key: byte, messages: seq<Listed>, n: nat)
    requires key == number * 8 + 2 < 128 && |messages| == n + 1
    ensures ListBytes(number, messages) == ListBytes(number, messages[..n]) + B(key, ListedBytes(messages[n]))
  {
    BIs(number, key, ListedBytes(messages[n]));
  }

  lemma {:induction false} ListLayout(number: nat, key: byte, messages: seq<Listed>)
    requires key == number * 8 + 2 < 128
    ensures ListBytes(number, messages) == Each(key, messages)
    decreases |messages|
  {
    if messages != [] {
      var n := |messages| - 1;
      ListLast(number, key, messages, n);
      ListLayout(number, key, messages[..n]);
      EachLast(key, messages, n);
    }
  }

  lemma EachLast(key: byte, messages: seq<Listed>, n: nat)
    requires |messages| == n + 1
    ensures Each(key, messages) == Each(key, messages[..n]) + B(key, ListedBytes(messages[n]))
  {
    EachMore(key, messages[..n], messages[n]);
    assert messages == messages[..n] + [messages[n]];
  }

  function BaseOf(base: Option<BaseResp>): seq<byte> { match base case None => [] case Some(x) => BaseBytes(x) }

  function RoomOf(room: Option<RoomInfo>): seq<byte> { match room case None => [] case Some(x) => RoomBytes(x) }

  /** A nil base response is left out, but in a login, where nil parts are written empty. */
  function OptionalBase(base: Option<BaseResp>): seq<byte> { if base == None then [] else B(0x0a, BaseOf(base)) }

  lemma OptionalBaseIs(base: Option<BaseResp>)
    ensures BasePart(base) == OptionalBase(base)
  {
    if base.Some? {
      BIs(1, 0x0a, BaseBytes(base.value));
    }
  }

  lemma ResponseLayout(r: Response)
    ensures ResponseBytes(r)
            == match r
               case WxLoginResp(base, room) => B(0x0a, BaseOf(base)) + B(0x12, RoomOf(room))
               case WxHeartBeatResp(base) => OptionalBase(base)
               case WxJoinRoomResp(base) => OptionalBase(base)
               case WxQuitRoomResp(base) => OptionalBase(base)
               case WxSyncMessageResp(base, messages, ack) => OptionalBase(base) + Each(0x12, messages) + U(0x18, ack)
               case NewSendDebugMessageResp(base, min, max) => OptionalBase(base) + U(0x10, min) + U(0x18, max)
               case MessageNotify(messages) => Each(0x0a, messages)
               case EventNotify => []
  {
    match r
    case WxLoginResp(base, room) =>
      BIs(1, 0x0a, BaseOf(base));
      BIs(2, 0x12, RoomOf(room));
    case WxSyncMessageResp(base, messages, ack) =>
      OptionalBaseIs(base);
      ListLayout(2, 0x12, messages);
      UIs(3, 0x18, ack);
    case NewSendDebugMessageResp(base, min, max) =>
      OptionalBaseIs(base);
      UIs(2, 0x10, min);
      UIs(3, 0x18, max);
    case MessageNotify(messages) => ListLayout(1, 0x0a, messages);
    case EventNotify =>
    case _ => OptionalBaseIs(r.base);
  }

  lemma SendReqLayout(r: SendReq)
    requires TypedReq(r)
    ensures SendReqBytes(r)
            == (if r.base == None then [] else B(0x0a, Marshal(BASE_REQ, r.base.value))) + Each(0x12, r.messages) + U(0x18, r.recvAck)
  {
    if r.base.Some? {
      BIs(1, 0x0a, Marshal(BASE_REQ, r.base.value));
    }
    ListLayout(2, 0x12, r.messages);
    UIs(3, 0x18, r.recvAck);
  }
}
