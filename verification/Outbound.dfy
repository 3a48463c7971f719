/**
 The outbound queue of wsClient in internal/app/app.go. Senders hold sendMu; the writer takes
 batches from the channel without it, writes frame by frame, and settles the byte account
 under the lock. Each method below is one such atomic step, and they may follow each other in
 any order: `Valid` is what holds in between.
 */
module Outbound {
  import opened Prelude

  type Frame = seq<byte>
  type Batch = seq<Frame>

  function Size(b: Batch): nat { if b == [] then 0 else Size(b[..|b| - 1]) + |b[|b| - 1]| }

  function TotalSize(bs: seq<Batch>): nat { if bs == [] then 0 else TotalSize(bs[1..]) + Size(bs[0]) }

  function Flatten(bs: seq<Batch>): seq<Frame> { if bs == [] then [] else Flatten(bs[..|bs| - 1]) + bs[|bs| - 1] }

  lemma {:induction false} TotalMore(bs: seq<Batch>, b: Batch)
    ensures TotalSize(bs + [b]) == TotalSize(bs) + Size(b)
  {
    if bs != [] {
      TotalMore(bs[1..], b);
      assert (bs + [b])[1..] == bs[1..] + [b];
    } else {
      assert [b][1..] == [];
    }
  }

  lemma FlattenMore(bs: seq<Batch>, b: Batch)
    ensures Flatten(bs + [b]) == Flatten(bs) + b
  {
    assert (bs + [b])[..|bs|] == bs;
  }

  lemma SizeMore(b: Batch, f: Frame)
    ensures Size(b + [f]) == Size(b) + |f|
  {
    assert (b + [f])[..|b|] == b;
  }

  lemma {:induction false} SizePrefix(b: Batch, i: nat)
    requires i < |b|
    ensures Size(b[..i]) + |b[i]| <= Size(b)
    decreases |b|
  {
    var n := |b| - 1;
    if i < n {
      SizePrefix(b[..n], i);
      assert b[..n][..i] == b[..i];
    }
  }

  predicate IsPrefix(a: seq<Frame>, b: seq<Frame>) { |a| <= |b| && a == b[..|a|] }

  datatype Verdict = Queued | Closed | Nothing | MessageTooLarge | QueueBytes | Backpressure

  /** A message of the batch is over the size limit, or the batch over what is left of the byte limit. */
  predicate FitsLimits(b: Batch, messageLimit: nat, left: int) {
    (forall i | 0 <= i < |b| :: |b[i]| <= messageLimit) && Size(b) <= left
  }

  /** The messages before the k-th fit; it is too large itself, or too much for what they leave. */
  predicate Rejects(b: Batch, k: nat, messageLimit: nat, left: int, error: Verdict) {
    && k < |b| && FitsLimits(b[..k], messageLimit, left)
    && if |b[k]| > messageLimit then error == MessageTooLarge else Size(b[..k]) + |b[k]| > left && error == QueueBytes
  }

  /** The loop of SendBatch: message by message, each against what the ones before it leave. */
  method CheckBatch(b: Batch, messageLimit: nat, left: nat) returns (error: Option<Verdict>, total: nat)
    ensures error in {None, Some(MessageTooLarge), Some(QueueBytes)}
    ensures error.None? <==> FitsLimits(b, messageLimit, left)
    ensures error.None? ==> total == Size(b)
    ensures error.Some? ==> exists k: nat :: Rejects(b, k, messageLimit, left, error.value)
  {
    total := 0;
    for i := 0 to |b|
      invariant total == Size(b[..i]) <= left
      invariant forall k | 0 <= k < i :: |b[k]| <= messageLimit
    {
      SizePrefix(b, i);
      if |b[i]| > messageLimit {
        assert Rejects(b, i, messageLimit, left, MessageTooLarge);
        return Some(MessageTooLarge), total;
      }
      if |b[i]| > left - total {
        assert Rejects(b, i, messageLimit, left, QueueBytes);
        return Some(QueueBytes), total;
      }
      assert b[..i + 1] == b[..i] + [b[i]];
      SizeMore(b[..i], b[i]);
      total := total + |b[i]|;
    }
    assert b[..|b|] == b;
    return None, total;
  }

  /** What the writer has written of the batches accepted: those taken and the part of the one in its hands, or less if it stopped. */
  ghost predicate Progress(
    accepted: seq<Batch>, taken: nat, message: Option<Batch>, done: nat, stopped: bool, written: seq<Frame>)
  {
    && taken <= |accepted|
    && match message
       case Some(b) => taken > 0 && b == accepted[taken - 1] && done <= |b| && written == Flatten(accepted[..taken - 1]) + b[..done]
       case None => if stopped then IsPrefix(written, Flatten(accepted)) else written == Flatten(accepted[..taken])
  }

  lemma ProgressMore(
    accepted: seq<Batch>, b: Batch, taken: nat, message: Option<Batch>, done: nat, stopped: bool, written: seq<Frame>)
    requires Progress(accepted, taken, message, done, stopped, written)
    ensures Progress(accepted + [b], taken, message, done, stopped, written)
  {
    FlattenMore(accepted, b);
    assert (accepted + [b])[..taken] == accepted[..taken];
    assert taken > 0 ==> (accepted + [b])[..taken - 1] == accepted[..taken - 1];
  }

  const QUEUE_SIZE := 256
  const MESSAGE_BYTES := 0x80_0000
  const QUEUE_BYTES := 0x100_0000

  class WsClient {
    const queueSize: nat
    const maxMessageBytes: nat
    const queueByteLimit: nat
    /** The channel, the byte account, and the closed flag that goes with the done channel. */
    var outbound: seq<Batch>
    var queueBytes: nat
    var closed: bool
    /** The writer: the batch in its hands, how many frames of it are written, and whether it is settled. */
    var message: Option<Batch>
    var done: nat
    var failed: bool
    var writerDone: bool
    /** What reached the transport. */
    var written: seq<Frame>

    /** The batches accepted so far, in order; those taken from the channel come first. */
    ghost var accepted: seq<Batch>
    ghost var taken: nat

    ghost predicate Valid()
      reads this
    {
      && taken + |outbound| == |accepted| && outbound == accepted[taken..]
      && |outbound| <= queueSize
      && queueBytes == TotalSize(outbound) + (if message.Some? then Size(message.value) else 0)
      && queueBytes <= queueByteLimit
      && (message.Some? ==> !writerDone)
      && Progress(accepted, taken, message, done, failed || writerDone, written)
    }

    /** newWSClient and initialize; limits below 1 take the defaults. */
    constructor (queueSize: int, maxMessageBytes: int, queueByteLimit: int)
      ensures Valid() && accepted == [] && written == [] && !closed && !writerDone && !failed && message.None?
    {
      this.queueSize := if queueSize <= 0 then QUEUE_SIZE else queueSize;
      this.maxMessageBytes := if maxMessageBytes <= 0 then MESSAGE_BYTES else maxMessageBytes;
      this.queueByteLimit := if queueByteLimit <= 0 then QUEUE_BYTES else queueByteLimit;
      outbound, queueBytes, closed, message, done, failed, writerDone, written := [], 0, false, None, 0, false, false, [];
      accepted, taken := [], 0;
    }

    /** SendBatch: the whole batch is accepted, or nothing of it. */
    method SendBatch(b: Batch) returns (verdict: Verdict)
      requires Valid()
      modifies this`outbound, this`queueBytes, this`accepted
      ensures Valid()
      ensures verdict.Queued? <==> !old(closed) && b != [] && FitsLimits(b, maxMessageBytes, queueByteLimit - old(queueBytes))
                                   && |old(outbound)| < queueSize
      ensures verdict.Closed? <==> old(closed)
      ensures verdict.Nothing? <==> !old(closed) && b == []
      ensures verdict.Backpressure? <==> !old(closed) && b != [] && FitsLimits(b, maxMessageBytes, queueByteLimit - old(queueBytes))
                                         && |old(outbound)| >= queueSize
      ensures verdict in {MessageTooLarge, QueueBytes} ==>
                var left := queueByteLimit - old(queueBytes);
                exists k: nat :: Rejects(b, k, maxMessageBytes, left, verdict)
      ensures if verdict.Queued? then accepted == old(accepted) + [b] && queueBytes == old(queueBytes) + Size(b)
              else accepted == old(accepted) && queueBytes == old(queueBytes) && outbound == old(outbound)
    {
      if closed { return Closed; }
      if b == [] { return Nothing; }
      var error, total := CheckBatch(b, maxMessageBytes, queueByteLimit - queueBytes);
      if error.Some? { return error.value; }
      if |outbound| >= queueSize { return Backpressure; }
      TotalMore(outbound, b);
      ProgressMore(accepted, b, taken, message, done, failed || writerDone, written);
      outbound, queueBytes, accepted := outbound + [b], queueBytes + total, accepted + [b];
      return Queued;
    }

    /** The writer takes the next batch; it may still do so once the client is closed. */
    method Receive()
      requires Valid() && message.None? && !writerDone && !failed && outbound != []
      modifies this`outbound, this`message, this`done, this`taken
      ensures Valid() && message == Some(old(outbound)[0]) && done == 0 && outbound == old(outbound)[1..]
    {
      assert outbound[0] == accepted[taken];
      message, done, outbound, taken := Some(outbound[0]), 0, outbound[1..], taken + 1;
      assert written + [] == written;
    }

    /** One call of writeMessage. */
    method WriteOne(ok: bool)
      requires Valid() && message.Some? && done < |message.value| && !failed
      modifies this`written, this`done, this`failed
      ensures Valid() && failed == !ok
      ensures written == if ok then old(written) + [message.value[old(done)]] else old(written)
    {
      var b := message.value;
      if !ok {
        failed := true;
        return;
      }
      assert b[..done + 1] == b[..done] + [b[done]];
      written, done := written + [b[done]], done + 1;
    }

    /** The account is settled behind the last frame, or behind the one that failed. */
    method Settle()
      requires Valid() && message.Some? && (failed || done == |message.value|)
      modifies this`queueBytes, this`message
      ensures Valid() && message.None? && queueBytes == old(queueBytes) - Size(old(message).value)
    {
      var b := message.value;
      WrittenPrefix();
      assert accepted[..taken] == accepted[..taken - 1] + [b];
      FlattenMore(accepted[..taken - 1], b);
      assert b[..|b|] == b;
      queueBytes, message := queueBytes - Size(b), None;
    }

    /** The end of the writer: it was told to stop, or a write failed and it stops the client itself. */
    method FinishWriter()
      requires Valid() && message.None? && (closed || failed)
      modifies this`writerDone, this`closed
      ensures Valid() && writerDone && closed
    {
      WrittenPrefix();
      writerDone, closed := true, true;
    }

    /** stop. */
    method Stop()
      requires Valid()
      modifies this`closed
      ensures Valid() && closed
    {
      closed := true;
    }

    /** At every moment the frames written are the first of the accepted batches, in order. */
    lemma WrittenPrefix()
      requires Valid()
      ensures IsPrefix(written, Flatten(accepted))
    {
      FlattenFirst(accepted, taken);
      if message.Some? {
        FlattenFirst(accepted, taken - 1);
        assert accepted[..taken] == accepted[..taken - 1] + [message.value];
        FlattenMore(accepted[..taken - 1], message.value);
      }
    }

    /** With nothing queued and nothing in hand, every accepted frame is written, unless a write failed. */
    lemma AllWritten()
      requires Valid() && message.None? && outbound == [] && !failed && !writerDone
      ensures written == Flatten(accepted) && queueBytes == 0
    {
      assert accepted[..taken] == accepted;
    }
  }

  lemma {:induction false} FlattenFirst(bs: seq<Batch>, n: nat)
    requires n <= |bs|
    ensures IsPrefix(Flatten(bs[..n]), Flatten(bs))
    decreases |bs|
  {
    if n < |bs| {
      var m := |bs| - 1;
      FlattenFirst(bs[..m], n);
      assert bs[..m][..n] == bs[..n];
    } else {
      assert bs[..n] == bs;
    }
  }
}
