/**
 eventBus and Subscription of sdk/service.go. Beside its channels the model keeps their
 histories: what was received, where in the bus's publishes a channel began, and where and
 why it ended. Values are opaque; the clone handed to each subscriber is the value itself.
 */
module EventBus {
  import opened Prelude

  const DEFAULT_BUFFER := 64
  const MAX_BUFFER := 4096

  /** A channel, and whether its subscription carries ErrSlowSubscriber. */
  datatype Channel<T> = Channel(cap: nat, buffer: seq<T>, closed: bool, slow: bool)

  datatype End = Overflow | Unsubscribed | BusClosed

  datatype History<T> = History(received: seq<T>, start: nat, ended: Option<(nat, End)>)

  /** All channels ever made, their histories, those subscribed, and everything published while the bus was open. */
  datatype Bus<T> = Bus(
    channels: map<nat, Channel<T>>, histories: map<nat, History<T>>, subs: set<nat>, closed: bool, log: seq<T>)

  datatype Event<T> =
    | Subscribe(id: nat, buffer: int)
    | Publish(value: T)
    | Unsubscribe(id: nat)
    | CloseAll
    | Receive(id: nat)

  /** size is the bus's own buffer size, used if the caller asks for none. */
  function Capacity(size: int, buffer: int): (cap: nat)
    ensures 1 <= cap <= MAX_BUFFER
  {
    var wanted := if buffer > 0 then buffer else size;
    if wanted <= 0 then DEFAULT_BUFFER else if wanted > MAX_BUFFER then MAX_BUFFER else wanted
  }

  predicate HasRoom<T>(c: Channel<T>) { |c.buffer| < c.cap }

  /** A published value is put on the channel, or ends it if the buffer is full. */
  function Put<T>(c: Channel<T>, value: T): Channel<T> {
    if HasRoom(c) then c.(buffer := c.buffer + [value]) else c.(slow := true, closed := true)
  }

  predicate Consistent<T>(b: Bus<T>) { b.subs <= b.channels.Keys == b.histories.Keys }

  function Delivered<T>(b: Bus<T>, value: T): Bus<T>
    requires Consistent(b)
  {
    Bus(map id | id in b.channels :: if id in b.subs then Put(b.channels[id], value) else b.channels[id],
        map id | id in b.histories ::
          if id in b.subs && !HasRoom(b.channels[id]) then b.histories[id].(ended := Some((|b.log|, Overflow))) else b.histories[id],
        set id | id in b.subs && HasRoom(b.channels[id]), false, b.log + [value])
  }

  function Closed<T>(b: Bus<T>): Bus<T>
    requires Consistent(b)
  {
    Bus(map id | id in b.channels :: if id in b.subs then b.channels[id].(closed := true) else b.channels[id],
        map id | id in b.histories ::
          if id in b.subs then b.histories[id].(ended := Some((|b.log|, BusClosed))) else b.histories[id],
        {}, true, b.log)
  }

  predicate Enabled<T>(b: Bus<T>, e: Event<T>) {
    match e
    case Subscribe(id, _) => id !in b.channels
    case Unsubscribe(id) => id in b.channels
    case Receive(id) => id in b.channels && b.channels[id].buffer != []
    case _ => true
  }

  function Step<T>(b: Bus<T>, size: int, e: Event<T>): Bus<T>
    requires Consistent(b) && Enabled(b, e)
  {
    match e
    case Subscribe(id, buffer) =>
      b.(channels := b.channels[id := Channel(Capacity(size, buffer), [], b.closed, false)],
         histories := b.histories[id := History([], |b.log|, if b.closed then Some((|b.log|, BusClosed)) else None)],
         subs := if b.closed then b.subs else b.subs + {id})
    case Publish(value) => if b.closed then b else Delivered(b, value)
    case Unsubscribe(id) =>
      if id !in b.subs then b
      else b.(channels := b.channels[id := b.channels[id].(closed := true)],
              histories := b.histories[id := b.histories[id].(ended := Some((|b.log|, Unsubscribed)))],
              subs := b.subs - {id})
    case CloseAll => if b.closed then b else Closed(b)
    case Receive(id) =>
      var c, h := b.channels[id], b.histories[id];
      b.(channels := b.channels[id := c.(buffer := c.buffer[1..])],
         histories := b.histories[id := h.(received := h.received + [c.buffer[0]])])
  }

  // ---------------------------------------------------------------- no gaps

  /** Where a channel's share of the publishes ends. */
  function Stop<T>(h: History<T>, log: seq<T>): nat { if h.ended.Some? then h.ended.value.0 else |log| }

  /**
   A channel got exactly the publishes from its subscription to its end. It is open exactly
   while subscribed, and marked slow exactly if it ended by overflow.
   */
  ghost predicate Gapless<T>(c: Channel<T>, h: History<T>, subscribed: bool, log: seq<T>) {
    && 1 <= c.cap && |c.buffer| <= c.cap
    && h.start <= Stop(h, log) <= |log|
    && h.received + c.buffer == log[h.start..Stop(h, log)]
    && (subscribed <==> !c.closed) && (c.closed <==> h.ended.Some?)
    && (c.slow <==> h.ended.Some? && h.ended.value.1 == Overflow)
  }

  ghost predicate Sound<T>(b: Bus<T>) {
    && Consistent(b) && (b.closed ==> b.subs == {})
    && forall id | id in b.channels :: Gapless(b.channels[id], b.histories[id], id in b.subs, b.log)
  }

  lemma DeliveredGapless<T>(b: Bus<T>, value: T, id: nat)
    requires Consistent(b) && id in b.channels && Gapless(b.channels[id], b.histories[id], id in b.subs, b.log)
    ensures var b' := Delivered(b, value); Gapless(b'.channels[id], b'.histories[id], id in b'.subs, b'.log)
  {
    var c, h, log := b.channels[id], b.histories[id], b.log;
    if id in b.subs && HasRoom(c) {
      assert h.received + (c.buffer + [value]) == h.received + c.buffer + [value];
      assert log[h.start..] + [value] == (log + [value])[h.start..];
    } else {
      assert (log + [value])[..|log|] == log;
    }
  }

  /** Every operation, and every receive by a subscriber, keeps the channels gapless. */
  lemma StepSound<T>(b: Bus<T>, size: int, e: Event<T>)
    requires Sound(b) && Enabled(b, e)
    ensures Sound(Step(b, size, e))
  {
    match e
    case Subscribe(id, buffer) => SubscribeSound(b, size, id, buffer);
    case Publish(value) => PublishSound(b, size, value);
    case Unsubscribe(id) => UnsubscribeSound(b, size, id);
    case CloseAll => CloseSound(b, size);
    case Receive(id) => ReceiveSound(b, size, id);
  }

  lemma SubscribeSound<T>(b: Bus<T>, size: int, id: nat, buffer: int)
    requires Sound(b) && id !in b.channels
    ensures Sound(Step(b, size, Subscribe(id, buffer)))
  {
  }

  lemma PublishSound<T>(b: Bus<T>, size: int, value: T)
    requires Sound(b)
    ensures Sound(Step(b, size, Publish(value)))
  {
    if !b.closed {
      forall id | id in b.channels
        ensures var b' := Delivered(b, value); Gapless(b'.channels[id], b'.histories[id], id in b'.subs, b'.log)
      {
        DeliveredGapless(b, value, id);
      }
    }
  }

  lemma UnsubscribeSound<T>(b: Bus<T>, size: int, id: nat)
    requires Sound(b) && id in b.channels
    ensures Sound(Step(b, size, Unsubscribe(id)))
  {
  }

  lemma CloseSound<T>(b: Bus<T>, size: int)
    requires Sound(b)
    ensures Sound(Step(b, size, CloseAll))
  {
  }

  lemma ReceiveSound<T>(b: Bus<T>, size: int, id: nat)
    requires Sound(b) && id in b.channels && b.channels[id].buffer != []
    ensures Sound(Step(b, size, Receive(id)))
  {
    var c, h := b.channels[id], b.histories[id];
    assert h.received + [c.buffer[0]] + c.buffer[1..] == h.received + c.buffer;
  }

  predicate Legal<T>(b: Bus<T>, size: int, events: seq<Event<T>>)
    requires Sound(b)
    decreases |events|
  {
    events == [] || (Enabled(b, events[0]) && (StepSound(b, size, events[0]); Legal(Step(b, size, events[0]), size, events[1..])))
  }

  function Run<T>(b: Bus<T>, size: int, events: seq<Event<T>>): Bus<T>
    requires Sound(b) && Legal(b, size, events)
    decreases |events|
  {
    if events == [] then b else (StepSound(b, size, events[0]); Run(Step(b, size, events[0]), size, events[1..]))
  }

  /** What the channel was given stays; once it has ended, nothing is added and the end stays. */
  ghost predicate Keeps<T>(b: Bus<T>, b': Bus<T>, id: nat)
    requires id in b.channels && id in b.histories
  {
    && id in b'.channels && id in b'.histories
    && var h, h' := b.histories[id], b'.histories[id];
       && h'.start == h.start && b.log <= b'.log && h.received <= h'.received
       && (h.ended.Some? ==> h'.ended == h.ended
                             && h'.received + b'.channels[id].buffer == h.received + b.channels[id].buffer)
  }

  lemma PublishKeeps<T>(b: Bus<T>, size: int, value: T, id: nat)
    requires Sound(b) && id in b.channels
    ensures Keeps(b, Step(b, size, Publish(value)), id)
  {
    assert Gapless(b.channels[id], b.histories[id], id in b.subs, b.log);
  }

  lemma ReceiveKeeps<T>(b: Bus<T>, size: int, from: nat, id: nat)
    requires Sound(b) && Enabled(b, Receive(from)) && id in b.channels
    ensures Keeps(b, Step(b, size, Receive(from)), id)
  {
    if id == from {
      var c, h := b.channels[id], b.histories[id];
      assert h.received + [c.buffer[0]] + c.buffer[1..] == h.received + c.buffer;
    }
  }

  lemma StepKeeps<T>(b: Bus<T>, size: int, e: Event<T>, id: nat)
    requires Sound(b) && Enabled(b, e) && id in b.channels
    ensures Keeps(b, Step(b, size, e), id)
  {
    match e
    case Publish(value) => PublishKeeps(b, size, value, id);
    case Receive(from) => ReceiveKeeps(b, size, from, id);
    case _ => assert Gapless(b.channels[id], b.histories[id], id in b.subs, b.log);
  }

  /**
   Over any run: a channel holds and has handed out exactly the publishes from its subscription
   to its end; an end is final; and only overflow marks the subscription slow.
   */
  lemma {:induction false} RunGapless<T>(b: Bus<T>, size: int, events: seq<Event<T>>, id: nat)
    requires Sound(b) && Legal(b, size, events) && id in b.channels
    ensures var b' := Run(b, size, events);
            Sound(b') && id in b'.channels &&
            var h, h' := b.histories[id], b'.histories[id];
            && h'.start == h.start && b.log <= b'.log && h.received <= h'.received
            && h'.received + b'.channels[id].buffer == b'.log[h.start..Stop(h', b'.log)]
            && (h.ended.Some? ==> h'.ended == h.ended)
    decreases |events|
  {
    if events != [] {
      StepSound(b, size, events[0]);
      StepKeeps(b, size, events[0], id);
      RunGapless(Step(b, size, events[0]), size, events[1..], id);
    }
  }

  /** A publish ends a subscription exactly if its buffer is full, and then leaves its channel as it was. */
  lemma OverflowExactly<T>(b: Bus<T>, size: int, value: T, id: nat)
    requires Sound(b) && id in b.subs
    ensures var b' := Step(b, size, Publish(value));
            && (id !in b'.subs <==> |b.channels[id].buffer| == b.channels[id].cap)
            && (id !in b'.subs ==> b'.channels[id].slow && b'.channels[id].buffer == b.channels[id].buffer)
            && (id in b'.subs ==> b'.channels[id].buffer == b.channels[id].buffer + [value])
  {
    assert Gapless(b.channels[id], b.histories[id], true, b.log);
  }

  // ---------------------------------------------------------------- each operation, spelled out

  /** The size asked for, or else the bus's own, or else 64; at most 4096. */
  lemma CapacityExact(size: int, buffer: int)
    ensures var n := Capacity(size, buffer);
            && (1 <= buffer <= 4096 ==> n == buffer) && (buffer > 4096 ==> n == 4096)
            && (buffer <= 0 && 1 <= size <= 4096 ==> n == size) && (buffer <= 0 && size > 4096 ==> n == 4096)
            && (buffer <= 0 && size <= 0 ==> n == 64)
  {
  }

  /** All other channels are as they were. */
  ghost predicate OthersKept<T>(b: Bus<T>, b': Bus<T>, id: nat) {
    && b'.channels.Keys == b.channels.Keys + {id} && b'.subs - {id} == b.subs - {id} && b'.closed == b.closed && b'.log == b.log
    && forall x | x in b.channels && x != id :: b'.channels[x] == b.channels[x]
  }

  /** A new channel is empty, and open exactly if the bus is; only an open one is subscribed. */
  lemma SubscribeExact<T>(b: Bus<T>, size: int, id: nat, buffer: int)
    requires Consistent(b) && id !in b.channels
    ensures var b' := Step(b, size, Subscribe(id, buffer));
            && OthersKept(b, b', id) && (id in b'.subs <==> !b.closed)
            && b'.channels[id] == Channel(Capacity(size, buffer), [], b.closed, false)
  {
  }

  /** Unsubscribing closes the channel, once, and leaves what it holds; a receive takes the oldest value. */
  lemma OneChannelExact<T>(b: Bus<T>, size: int, id: nat)
    requires Consistent(b) && id in b.channels
    ensures var b', c := Step(b, size, Unsubscribe(id)), b.channels[id];
            && OthersKept(b, b', id) && id !in b'.subs
            && b'.channels[id] == Channel(c.cap, c.buffer, c.closed || id in b.subs, c.slow)
    ensures b.channels[id].buffer != [] ==>
              var b', c := Step(b, size, Receive(id)), b.channels[id];
              && OthersKept(b, b', id) && b'.subs == b.subs
              && b'.channels[id] == Channel(c.cap, c.buffer[1..], c.closed, c.slow)
              && b'.histories[id].received == b.histories[id].received + [c.buffer[0]]
  {
  }

  /** Closing the bus closes every channel, leaves what each holds, and is for good: a publish changes nothing then. */
  lemma CloseExact<T>(b: Bus<T>, size: int, value: T)
    requires Sound(b)
    ensures var b' := Step(b, size, CloseAll);
            && b'.closed && b'.subs == {} && b'.channels.Keys == b.channels.Keys && b'.log == b.log
            && (forall id | id in b.channels ::
                  b'.channels[id] == Channel(b.channels[id].cap, b.channels[id].buffer, true, b.channels[id].slow))
            && Step(b', size, Publish(value)) == b' && Step(b', size, CloseAll) == b'
  {
    forall id | id in b.channels && id !in b.subs ensures b.channels[id].closed {
      assert Gapless(b.channels[id], b.histories[id], false, b.log);
    }
    CloseSound(b, size);
  }

  // ---------------------------------------------------------------- the class

  class EventBus<T> {
    const size: int
    var channels: map<nat, Channel<T>>
    var subs: set<nat>
    var closed: bool
    ghost var histories: map<nat, History<T>>
    ghost var log: seq<T>

    ghost function View(): Bus<T>
      reads this
    {
      Bus(channels, histories, subs, closed, log)
    }

    constructor (size: int)
      ensures Sound(View()) && View() == Bus(map[], map[], {}, false, []) && this.size == size
    {
      this.size := size;
      channels, subs, closed, histories, log := map[], {}, false, map[], [];
    }

    /** subscribe; on a closed bus the channel is closed from the start. */
    method AddSubscriber(id: nat, buffer: int)
      requires Sound(View()) && id !in channels
      modifies this`channels, this`subs, this`histories
      ensures Sound(View()) && View() == Step(old(View()), size, Subscribe(id, buffer))
    {
      StepSound(View(), size, Subscribe(id, buffer));
      histories := histories[id := History([], |log|, if closed then Some((|log|, BusClosed)) else None)];
      channels := channels[id := Channel(Capacity(size, buffer), [], closed, false)];
      if !closed {
        subs := subs + {id};
      }
    }

    /** publish: a subscriber without room is closed instead of waited for. */
    method PublishValue(value: T)
      requires Sound(View())
      modifies this`channels, this`subs, this`histories, this`log
      ensures Sound(View()) && View() == Step(old(View()), size, Publish(value))
    {
      ghost var was := View();
      StepSound(was, size, Publish(value));
      if closed { return; }
      channels, subs := DeliverAll(was, channels, subs, value);
      histories := Delivered(was, value).histories;
      log := log + [value];
      assert View() == Delivered(was, value);
    }

    /** remove, behind Subscription.Close. */
    method Remove(id: nat)
      requires Sound(View()) && id in channels
      modifies this`channels, this`subs, this`histories
      ensures Sound(View()) && View() == Step(old(View()), size, Unsubscribe(id))
    {
      StepSound(View(), size, Unsubscribe(id));
      if id in subs {
        OpenSubscribers(View());
        ghost var end := Some((|log|, Unsubscribed));
        subs, channels, histories :=
          subs - {id}, channels[id := CloseChannel(channels[id])], histories[id := histories[id].(ended := end)];
      }
    }

    method CloseBus()
      requires Sound(View())
      modifies this`channels, this`subs, this`histories, this`closed
      ensures Sound(View()) && View() == Step(old(View()), size, CloseAll)
    {
      ghost var was := View();
      StepSound(was, size, CloseAll);
      if closed { return; }
      closed := true;
      channels := CloseEach(was, channels, subs);
      histories := Closed(was).histories;
      subs := {};
    }
  }

  lemma OpenSubscribers<T>(b: Bus<T>)
    requires Sound(b)
    ensures forall id | id in b.subs :: !b.channels[id].closed
  {
    forall id | id in b.subs ensures !b.channels[id].closed {
      assert Gapless(b.channels[id], b.histories[id], true, b.log);
    }
  }

  /** close(ch), which panics on a channel that is closed already. */
  function CloseChannel<T>(c: Channel<T>): Channel<T>
    requires !c.closed
  {
    c.(closed := true)
  }

  /** The loop of publish, over the subscribers in no particular order. */
  method DeliverAll<T>(ghost b: Bus<T>, channels: map<nat, Channel<T>>, subs: set<nat>, value: T)
    returns (channels': map<nat, Channel<T>>, subs': set<nat>)
    requires Sound(b) && channels == b.channels && subs == b.subs
    ensures channels' == Delivered(b, value).channels && subs' == Delivered(b, value).subs
  {
    channels', subs' := channels, subs;
    OpenSubscribers(b);
    var todo := subs;
    while todo != {}
      invariant Delivering(b, channels', subs', todo, value)
      decreases todo
    {
      var id :| id in todo;
      DeliverTurn(b, channels', subs', todo, value, id);
      todo := todo - {id};
      var c := channels'[id];
      if |c.buffer| < c.cap {
        c := c.(buffer := c.buffer + [value]);
      } else {
        subs' := subs' - {id};
        c := CloseChannel(c.(slow := true));
      }
      channels' := channels'[id := c];
    }
    Delivers(b, channels', subs', value);
  }

  /** The value is delivered to the subscribers outside todo. */
  ghost predicate Delivering<T>(b: Bus<T>, channels: map<nat, Channel<T>>, subs: set<nat>, todo: set<nat>, value: T) {
    && todo <= b.subs <= b.channels.Keys == channels.Keys && subs <= b.subs
    && (forall id | id in b.channels ::
          channels[id] == if id in b.subs && id !in todo then Put(b.channels[id], value) else b.channels[id])
    && (forall id | id in b.subs :: id in subs <==> id in todo || HasRoom(b.channels[id]))
  }

  lemma DeliverTurn<T>(b: Bus<T>, channels: map<nat, Channel<T>>, subs: set<nat>, todo: set<nat>, value: T, id: nat)
    requires Delivering(b, channels, subs, todo, value) && id in todo
    ensures channels[id] == b.channels[id]
    ensures Delivering(b, channels[id := Put(channels[id], value)], if HasRoom(channels[id]) then subs else subs - {id}, todo - {id}, value)
  {
  }

  lemma Delivers<T>(b: Bus<T>, channels: map<nat, Channel<T>>, subs: set<nat>, value: T)
    requires Consistent(b) && Delivering(b, channels, subs, {}, value)
    ensures channels == Delivered(b, value).channels && subs == Delivered(b, value).subs
  {
  }

  /** The loop of closeAll. */
  method CloseEach<T>(ghost b: Bus<T>, channels: map<nat, Channel<T>>, subs: set<nat>) returns (channels': map<nat, Channel<T>>)
    requires Sound(b) && channels == b.channels && subs == b.subs
    ensures channels' == Closed(b).channels
  {
    channels' := channels;
    var todo := subs;
    while todo != {}
      invariant todo <= subs && channels'.Keys == channels.Keys
      invariant forall id | id in channels ::
                  channels'[id] == if id in subs && id !in todo then channels[id].(closed := true) else channels[id]
      decreases todo
    {
      var id :| id in todo;
      todo := todo - {id};
      assert Gapless(channels'[id], b.histories[id], true, b.log);
      channels' := channels'[id := CloseChannel(channels'[id])];
    }
  }
}
