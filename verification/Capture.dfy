/**
 Plain captures of internal/capture/capture.go: recording, validation with limits, and replay
 that submits all frames or none. The format is that of CaptureFormat.dfy.
 */
module Capture {
  import opened Prelude
  import opened CaptureFormat
  import Publication
  import Records

  const CHUNK := 0x8000

  // ---------------------------------------------------------------- writing to a file

  /** A writer that may take part of what it is given, or fail. */
  class Sink {
    var data: seq<byte>

    constructor ()
      ensures data == []
    {
      data := [];
    }

    method Write(p: seq<byte>) returns (n: nat, failed: bool)
      modifies this
      ensures n <= |p| && data == old(data) + p[..n]
    {
      n :| 0 <= n <= |p|;
      failed :| true;
      data := data + p[..n];
    }
  }

  /** writeAll: all of p reaches the sink, however it is split, or an error is reported. */
  method WriteAll(sink: Sink, p: seq<byte>) returns (ok: bool)
    modifies sink
    ensures ok ==> sink.data == old(sink.data) + p
    ensures exists k: nat | k <= |p| :: sink.data == old(sink.data) + p[..k]
  {
    var done := 0;
    assert p[..0] == [];
    while done < |p|
      invariant done <= |p| && sink.data == old(sink.data) + p[..done]
      decreases |p| - done
    {
      var n, failed := sink.Write(p[done..]);
      assert p[..done] + p[done..][..n] == p[..done + n];
      done := done + n;
      if failed || n == 0 { return false; }
    }
    assert p[..done] == p;
    return true;
  }

  // ---------------------------------------------------------------- validation and replay

  lemma ScanTurn(d: seq<byte>, i: nat, done: seq<Frame>, limits: Limits)
    requires i <= |d|
    ensures var n, total := |done|, Total(done);
            var step := FrontStep(d[i..], n, total, limits);
            Prepend(done, Scan(d[i..], n, total, limits))
            == match step
               case Done => Good(done)
               case Broken(e) => Bad(e)
               case Next(f) => Prepend(done + [f], Scan(d[i + 4 + |f|..], |done + [f]|, Total(done + [f]), limits))
  {
    match FrontStep(d[i..], |done|, Total(done), limits)
    case Done => assert done + [] == done;
    case Broken(_) =>
    case Next(f) =>
      assert d[i..][4 + |f|..] == d[i + 4 + |f|..];
      TotalMore(done, f);
      PrependTwice(done, [f], Scan(d[i + 4 + |f|..], |done| + 1, Total(done) + |f|, limits));
  }

  lemma ReachedStart(d: seq<byte>, limits: Limits)
    ensures Reached(Frames(d, limits), d, 0, [], limits)
  {
    PrependNone(Frames(d, limits));
    assert d[0..] == d;
  }

  lemma ReachedTurn(whole: Scanned, d: seq<byte>, i: nat, done: seq<Frame>, limits: Limits)
    requires Reached(whole, d, i, done, limits)
    ensures var step := FrontStep(d[i..], |done|, Total(done), limits);
            && (step.Done? <==> i == |d|)
            && (step.Done? ==> whole == Good(done))
            && (step.Broken? ==> whole == Bad(step.error))
            && (step.Next? ==> Total(done + [step.frame]) == Total(done) + |step.frame|)
            && (step.Next? ==> Reached(whole, d, i + 4 + |step.frame|, done + [step.frame], limits))
  {
    assert Asked(0);
    ScanTurn(d, i, done, limits);
    var step := FrontStep(d[i..], |done|, Total(done), limits);
    if step.Next? {
      TotalMore(done, step.frame);
    }
  }

  lemma PrependTwice(a: seq<Frame>, b: seq<Frame>, s: Scanned)
    ensures Prepend(a, Prepend(b, s)) == Prepend(a + b, s)
  {
    if s.Good? {
      assert a + (b + s.frames) == a + b + s.frames;
    }
  }

  lemma TotalMore(frames: seq<Frame>, f: Frame)
    ensures Total(frames + [f]) == Total(frames) + |f|
    ensures Framing(frames + [f]) == Framing(frames) + Framed(f)
  {
    assert (frames + [f])[..|frames|] == frames;
  }

  /**
   validateReader: counts frames and bytes, and copies what it reads to a snapshot if it is
   given one, the payloads in chunks.
   */
  method ValidateReader(d: seq<byte>, limits: Limits, snapshot: Sink?)
    returns (error: Option<Error>, frameCount: nat, totalBytes: nat)
    modifies snapshot
    ensures error != Some(SinkFailed) ==>
              match Frames(d, limits)
              case Bad(e) => error == Some(e)
              case Good(fs) => error == None && frameCount == |fs| && totalBytes == Total(fs)
    ensures snapshot == null ==> error != Some(SinkFailed)
    ensures error.None? && snapshot != null ==> snapshot.data == old(snapshot.data) + d
  {
    frameCount, totalBytes := 0, 0;
    var i := 0;
    ghost var done: seq<Frame>, whole := [], Frames(d, limits);
    ReachedStart(d, limits);
    assert d[..0] == [] && d[..|d|] == d;
    while true
      invariant Reached(whole, d, i, done, limits) && frameCount == |done| && totalBytes == Total(done)
      invariant snapshot != null ==> snapshot.data == old(snapshot.data) + d[..i]
      decreases |d| - i
    {
      ghost var step := FrontStep(d[i..], frameCount, totalBytes, limits);
      ReachedTurn(whole, d, i, done, limits);
      if i == |d| { return None, frameCount, totalBytes; }
      var n;
      error, n := CopyFrame(d, i, frameCount, totalBytes, limits, snapshot);
      if error.Some? { return error, 0, 0; }
      assert d[..i] + d[i..i + 4 + n] == d[..i + 4 + n];
      done := done + [step.frame];
      i, frameCount, totalBytes := i + 4 + n, frameCount + 1, totalBytes + n;
    }
  }

  lemma PrependNone(s: Scanned)
    ensures Prepend([], s) == s
  {
  }

  /** One turn of validateReader: the header of a frame, the limits, and its payload. */
  method CopyFrame(d: seq<byte>, i: nat, frameCount: nat, totalBytes: nat, limits: Limits, snapshot: Sink?)
    returns (error: Option<Error>, n: nat)
    requires i < |d|
    modifies snapshot
    ensures snapshot == null ==> error != Some(SinkFailed)
    ensures error != Some(SinkFailed) ==>
              match FrontStep(d[i..], frameCount, totalBytes, limits)
              case Done => false
              case Broken(e) => error == Some(e)
              case Next(f) => error == None && n == |f|
    ensures error.None? && snapshot != null ==> i + 4 + n <= |d| && snapshot.data == old(snapshot.data) + d[i..i + 4 + n]
  {
    if |d| - i < 4 { return Some(Truncated), 0; }
    assert d[i..][..4] == d[i..i + 4];
    n := Records.FromBe(d[i..i + 4]);
    if n > MAX_FRAME { return Some(FrameTooLarge), n; }
    if limits.frames != 0 && frameCount + 1 > limits.frames { return Some(TooManyFrames), n; }
    if limits.bytes != 0 && totalBytes + n > limits.bytes { return Some(CaptureTooLarge), n; }
    if snapshot != null {
      var ok := WriteAll(snapshot, d[i..i + 4]);
      if !ok { return Some(SinkFailed), n; }
    }
    error := CopyPayload(d, i + 4, n, snapshot);
    if error.None? {
      assert d[i..i + 4] + d[i + 4..i + 4 + n] == d[i..i + 4 + n];
    }
  }

  /** The inner loop of validateReader: chunk after chunk, up to a missing one. */
  method CopyPayload(d: seq<byte>, start: nat, n: nat, snapshot: Sink?) returns (error: Option<Error>)
    requires start <= |d|
    modifies snapshot
    ensures error in {None, Some(Truncated), Some(SinkFailed)}
    ensures error != Some(SinkFailed) ==> (error.None? <==> start + n <= |d|)
    ensures snapshot == null ==> error != Some(SinkFailed)
    ensures error.None? && snapshot != null ==> snapshot.data == old(snapshot.data) + d[start..start + n]
  {
    var remaining: nat, i: nat := n, start;
    while remaining > 0
      invariant start <= i <= |d| && i + remaining == start + n
      invariant snapshot != null ==> snapshot.data == old(snapshot.data) + d[start..i]
      decreases remaining
    {
      var chunk := if remaining < CHUNK then remaining else CHUNK;
      if |d| - i < chunk { return Some(Truncated); }
      if snapshot != null {
        var ok := WriteAll(snapshot, d[i..i + chunk]);
        if !ok { return Some(SinkFailed); }
        assert d[start..i] + d[i..i + chunk] == d[start..i + chunk];
      }
      i, remaining := i + chunk, remaining - chunk;
    }
    return None;
  }

  /** Behind an accepted beginning, an accepted capture has a further frame or ends. */
  lemma AcceptedTurn(whole: Scanned, d: seq<byte>, i: nat, done: seq<Frame>, limits: Limits) returns (f: Frame)
    requires whole.Good? && Reached(whole, d, i, done, limits)
    ensures i == |d| ==> whole.frames == done
    ensures |done| <= |whole.frames| && done == whole.frames[..|done|]
    ensures i < |d| ==>
              && Stands(d, i, f, |done|, Total(done), limits) && |done| < |whole.frames|
              && Reached(whole, d, i + 4 + |f|, done + [f], limits)
  {
    AcceptedPrefix(whole, d, i, done, limits);
    ReachedTurn(whole, d, i, done, limits);
    var step := FrontStep(d[i..], |done|, Total(done), limits);
    f := if step.Next? then step.frame else [];
    if i < |d| {
      AcceptedPrefix(whole, d, i + 4 + |f|, done + [f], limits);
    }
  }

  lemma AcceptedPrefix(whole: Scanned, d: seq<byte>, i: nat, done: seq<Frame>, limits: Limits)
    requires whole.Good? && Reached(whole, d, i, done, limits)
    ensures |done| <= |whole.frames| && done == whole.frames[..|done|]
  {
    assert Asked(0);
  }

  /** The header and the payload of the next frame, as both replay loops read them. */
  method ReadFrame(d: seq<byte>, i: nat, ghost f: Frame, ghost n: nat, ghost total: nat, ghost limits: Limits) returns (frame: Frame)
    requires Stands(d, i, f, n, total, limits)
    ensures frame == f && i + 4 + |frame| <= |d|
  {
    assert Asked(0);
    assert d[i..][..4] == d[i..i + 4];
    var size := Records.FromBe(d[i..i + 4]);
    assert d[i..][4..4 + size] == d[i + 4..i + 4 + size];
    frame := [];
    while |frame| < size
      invariant |frame| <= size && frame == d[i + 4..i + 4 + |frame|]
      decreases size - |frame|
    {
      var chunk := if size - |frame| > CHUNK then CHUNK else size - |frame|;
      var at := i + 4 + |frame|;
      assert d[i + 4..at] + d[at..at + chunk] == d[i + 4..at + chunk];
      frame := frame + d[at..at + chunk];
    }
  }

  /** replayFramesContext: the second pass reads what the first has accepted. */
  method ReplayFrames(d: seq<byte>) returns (result: Scanned)
    ensures result == Frames(d, REPLAY)
  {
    var error, _, _ := ValidateReader(d, REPLAY, null);
    if error.Some? { return Bad(error.value); }
    var submitError, out := ReplaySnapshot(d, None);
    return Good(out);
  }

  /**
   ReplayEachContext: the source is copied and validated first, and frames are submitted only
   then. refused is the number of the submission that the callback refuses, if it does.
   */
  method ReplayEach(d: seq<byte>, refused: Option<nat>) returns (error: Option<Error>, submitted: seq<Frame>)
    ensures error == Some(SinkFailed) ==> submitted == []
    ensures error != Some(SinkFailed) ==>
              match Frames(d, REPLAY)
              case Bad(e) => error == Some(e) && submitted == []
              case Good(fs) =>
                if refused.Some? && refused.value < |fs|
                then error == Some(SubmitFailed) && submitted == fs[..refused.value]
                else error == None && submitted == fs
  {
    var snapshot := new Sink();
    var failed, _, _ := ValidateReader(d, REPLAY, snapshot);
    if failed.Some? { return failed, []; }
    assert [] + d == d;
    error, submitted := ReplaySnapshot(snapshot.data, refused);
  }

  /** replaySnapshotContext, on bytes that validation accepted. */
  method ReplaySnapshot(d: seq<byte>, refused: Option<nat>) returns (error: Option<Error>, submitted: seq<Frame>)
    requires Frames(d, REPLAY).Good?
    ensures var fs := Frames(d, REPLAY).frames;
            if refused.Some? && refused.value < |fs|
            then error == Some(SubmitFailed) && submitted == fs[..refused.value]
            else error == None && submitted == fs
  {
    ghost var whole := Frames(d, REPLAY);
    submitted := [];
    var i := 0;
    ReachedStart(d, REPLAY);
    while i < |d|
      invariant Reached(whole, d, i, submitted, REPLAY)
      invariant refused.Some? ==> |submitted| <= refused.value
      decreases |d| - i
    {
      ghost var f := AcceptedTurn(whole, d, i, submitted, REPLAY);
      var frame := ReadFrame(d, i, f, |submitted|, Total(submitted), REPLAY);
      if refused == Some(|submitted|) { return Some(SubmitFailed), submitted; }
      submitted, i := submitted + [frame], i + 4 + |frame|;
    }
    var _ := AcceptedTurn(whole, d, i, submitted, REPLAY);
    return None, submitted;
  }

  // ---------------------------------------------------------------- what is framed is read, and only that

  lemma SmallMore(frames: seq<Frame>, f: Frame)
    requires Small(frames) && |f| <= MAX_FRAME
    ensures Small(frames + [f])
  {
  }

  lemma ScansIs(d: seq<byte>, n: nat, total: nat, limits: Limits, s: Scanned)
    ensures Scans(d, n, total, limits, s) <==> Scan(d, n, total, limits) == s
  {
    assert Asked(0);
  }

  lemma FramedStep(f: Frame, tail: seq<byte>, n: nat, total: nat, limits: Limits)
    requires |f| <= MAX_FRAME && Within(limits, n + 1, total + |f|)
    ensures FrontStep(Framed(f) + tail, n, total, limits) == Next(f) && (Framed(f) + tail)[4 + |f|..] == tail
  {
    var d := Framed(f) + tail;
    Records.Bounds();
    Records.BeRound(|f|, 4);
    assert d[..4] == Records.Be(|f|, 4) && d[4..4 + |f|] == f && d[4 + |f|..] == tail;
  }

  /** A framed frame is read before whatever follows it. */
  lemma FramedRead(f: Frame, tail: seq<byte>, n: nat, total: nat, limits: Limits, s: Scanned)
    requires |f| <= MAX_FRAME && Within(limits, n + 1, total + |f|) && Scans(tail, n + 1, total + |f|, limits, s)
    ensures Scans(Framed(f) + tail, n, total, limits, Prepend([f], s))
  {
    ScansIs(tail, n + 1, total + |f|, limits, s);
    FramedStep(f, tail, n, total, limits);
  }

  lemma Associative(a: seq<byte>, b: seq<byte>, c: seq<byte>)
    ensures a + b + c == a + (b + c)
  {
  }

  /** Reading what frames were written to gives these frames, and goes on behind them. */
  lemma {:induction false} FramingRead(frames: seq<Frame>, d: seq<byte>, tail: seq<byte>, limits: Limits, s: Scanned)
    requires Small(frames) && Within(limits, |frames|, Total(frames)) && d == Framing(frames)
    requires Scans(tail, |frames|, Total(frames), limits, s)
    ensures Scans(d + tail, 0, 0, limits, Prepend(frames, s))
    decreases |frames|
  {
    if frames == [] {
      assert d + tail == tail;
      PrependNone(s);
    } else {
      var init, f := frames[..|frames| - 1], frames[|frames| - 1];
      LastFrame(frames, init, f);
      FramedRead(f, tail, |init|, Total(init), limits, s);
      FramingRead(init, Framing(init), Framed(f) + tail, limits, Prepend([f], s));
      PrependTwice(init, [f], s);
      Associative(Framing(init), Framed(f), tail);
    }
  }

  lemma LastFrame(frames: seq<Frame>, init: seq<Frame>, f: Frame)
    requires frames != [] && init == frames[..|frames| - 1] && f == frames[|frames| - 1]
    ensures frames == init + [f] && Total(frames) == Total(init) + |f| && Framing(frames) == Framing(init) + Framed(f)
    ensures Small(frames) ==> Small(init) && |f| <= MAX_FRAME
  {
    TotalMore(init, f);
  }

  lemma FrontFrame(d: seq<byte>, n: nat, total: nat, limits: Limits)
    requires FrontStep(d, n, total, limits).Next?
    ensures var f := FrontStep(d, n, total, limits).frame;
            d == Framed(f) + d[4 + |f|..] && |f| <= MAX_FRAME && Within(limits, n + 1, total + |f|)
  {
    Records.BytesRound(d[..4]);
    var f := FrontStep(d, n, total, limits).frame;
    assert d == d[..4] + d[4..4 + |f|] + d[4 + |f|..];
  }

  lemma FrontList(f: Frame, rest: seq<Frame>)
    ensures FramingFront([f] + rest) == Framed(f) + FramingFront(rest)
    ensures TotalFront([f] + rest) == |f| + TotalFront(rest)
    ensures Small(rest) && |f| <= MAX_FRAME ==> Small([f] + rest)
  {
    assert ([f] + rest)[1..] == rest;
  }

  /** The first frame of an accepted capture. */
  lemma ScansTurn(d: seq<byte>, n: nat, total: nat, limits: Limits, fs: seq<Frame>)
    returns (f: Frame, tail: seq<byte>, rest: seq<Frame>)
    requires d != [] && Scans(d, n, total, limits, Good(fs))
    ensures d == Framed(f) + tail && |tail| < |d| && fs == [f] + rest
    ensures |f| <= MAX_FRAME && Within(limits, n + 1, total + |f|)
    ensures Scans(tail, n + 1, total + |f|, limits, Good(rest))
  {
    ScansIs(d, n, total, limits, Good(fs));
    f := FrontStep(d, n, total, limits).frame;
    FrontFrame(d, n, total, limits);
    tail := d[4 + |f|..];
    rest := Scan(tail, n + 1, total + |f|, limits).frames;
  }

  /** An accepted capture is nothing but the framing of its frames, which are within the limits. */
  lemma {:induction false} ScanBytes(d: seq<byte>, n: nat, total: nat, limits: Limits, fs: seq<Frame>)
    requires Scans(d, n, total, limits, Good(fs)) && Within(limits, n, total)
    ensures d == FramingFront(fs) && Small(fs) && Within(limits, n + |fs|, total + TotalFront(fs))
    decreases |d|
  {
    if d == [] {
      ScansIs(d, n, total, limits, Good(fs));
    } else {
      var f, tail, rest := ScansTurn(d, n, total, limits, fs);
      ScanBytes(tail, n + 1, total + |f|, limits, rest);
      FrontList(f, rest);
    }
  }

  lemma {:induction false} FrontIsBack(frames: seq<Frame>)
    ensures Framing(frames) == FramingFront(frames) && Total(frames) == TotalFront(frames)
    decreases |frames|
  {
    if frames != [] {
      var n := |frames| - 1;
      FrontIsBack(frames[..n]);
      FrontMore(frames[..n], frames[n]);
      assert frames[..n] + [frames[n]] == frames;
    }
  }

  lemma {:induction false} FrontMore(frames: seq<Frame>, f: Frame)
    ensures FramingFront(frames + [f]) == FramingFront(frames) + Framed(f)
    ensures TotalFront(frames + [f]) == TotalFront(frames) + |f|
    decreases |frames|
  {
    if frames != [] {
      FrontMore(frames[1..], f);
      assert (frames + [f])[1..] == frames[1..] + [f];
    } else {
      assert (frames + [f])[1..] == [];
    }
  }

  /** Validation accepts exactly the framings of small frames within the limits, and reads these frames. */
  lemma AcceptedExactly(d: seq<byte>, frames: seq<Frame>, limits: Limits)
    ensures Frames(d, limits) == Good(frames)
            <==> d == Framing(frames) && Small(frames) && Within(limits, |frames|, Total(frames))
  {
    if Frames(d, limits) == Good(frames) {
      ScansIs(d, 0, 0, limits, Good(frames));
      ScanBytes(d, 0, 0, limits, frames);
      FrontIsBack(frames);
    }
    if d == Framing(frames) && Small(frames) && Within(limits, |frames|, Total(frames)) {
      ScansIs([], |frames|, Total(frames), limits, Good([]));
      FramingRead(frames, d, [], limits, Good([]));
      assert d + [] == d && frames + [] == frames;
      ScansIs(d, 0, 0, limits, Good(frames));
    }
  }

  lemma FourBytes(d: seq<byte>)
    requires |d| >= 4
    ensures Records.FromBe(d[..4]) == Length(d)
  {
    var s := d[..4];
    assert s[..3][..2] == s[..2] && s[..2][..1] == s[..1] && s[..1][..0] == [];
    var a: nat := d[0];
    assert Records.FromBe(s[..1]) == a && Records.FromBe(s[..2]) == 256 * a + d[1];
    assert Records.FromBe(s[..3]) == 256 * Records.FromBe(s[..2]) + d[2];
    assert Records.FromBe(s) == 256 * Records.FromBe(s[..3]) + d[3];
  }

  /** A frame is framed by its length, of which it has at most 64 MiB, and its bytes. */
  lemma FramedLayout(f: Frame)
    requires |f| <= 67_108_864
    ensures Length(Framed(f)) == |f| && Framed(f)[4..] == f
  {
    var d := Framed(f);
    Records.Bounds();
    Records.BeRound(|f|, 4);
    FourBytes(d);
    assert d[..4] == Records.Be(|f|, 4);
  }

  lemma StepFault(d: seq<byte>, n: nat, total: nat, limits: Limits, e: Error)
    requires Within(limits, n, total)
    ensures FrontStep(d, n, total, limits) == Broken(e) <==> Fault(d, n, total, limits, e)
  {
    if |d| >= 4 {
      FourBytes(d);
    }
  }

  /** The accepted frames before the fault, and the bytes that have it. */
  lemma {:induction false} FaultFound(d: seq<byte>, n: nat, total: nat, limits: Limits, e: Error)
    returns (frames: seq<Frame>, rest: seq<byte>)
    requires Scans(d, n, total, limits, Bad(e)) && Within(limits, n, total)
    ensures d == FramingFront(frames) + rest && Small(frames) && Within(limits, n + |frames|, total + TotalFront(frames))
    ensures Fault(rest, n + |frames|, total + TotalFront(frames), limits, e)
    decreases |d|
  {
    ScansIs(d, n, total, limits, Bad(e));
    var step := FrontStep(d, n, total, limits);
    if step.Next? {
      var f, tail := step.frame, d[4 + |step.frame|..];
      FrontFrame(d, n, total, limits);
      BrokenLater(d, n, total, limits, e, f, tail);
      frames, rest := FaultFound(tail, n + 1, total + |f|, limits, e);
      FrontList(f, frames);
      Associative(Framed(f), FramingFront(frames), rest);
      frames := [f] + frames;
    } else {
      StepFault(d, n, total, limits, e);
      frames, rest := [], d;
      assert FramingFront([]) + d == d;
    }
  }

  lemma BrokenLater(d: seq<byte>, n: nat, total: nat, limits: Limits, e: Error, f: Frame, tail: seq<byte>)
    requires Scan(d, n, total, limits) == Bad(e) && FrontStep(d, n, total, limits) == Next(f) && tail == d[4 + |f|..]
    ensures Scans(tail, n + 1, total + |f|, limits, Bad(e))
  {
  }

  /** A capture is rejected with an error exactly if accepted frames stand before bytes with that fault. */
  lemma RejectedExactly(d: seq<byte>, limits: Limits, e: Error)
    ensures Frames(d, limits) == Bad(e) <==> exists frames, rest :: Rejected(d, limits, e, frames, rest)
  {
    if Frames(d, limits) == Bad(e) {
      ScansIs(d, 0, 0, limits, Bad(e));
      var frames, rest := FaultFound(d, 0, 0, limits, e);
      FrontIsBack(frames);
      assert Rejected(d, limits, e, frames, rest);
    }
    if frames, rest :| Rejected(d, limits, e, frames, rest) {
      FaultRejects(d, limits, e, frames, rest);
    }
  }

  lemma FaultRejects(d: seq<byte>, limits: Limits, e: Error, frames: seq<Frame>, rest: seq<byte>)
    requires Rejected(d, limits, e, frames, rest)
    ensures Frames(d, limits) == Bad(e)
  {
    StepFault(rest, |frames|, Total(frames), limits, e);
    ScansIs(rest, |frames|, Total(frames), limits, Bad(e));
    FramingRead(frames, Framing(frames), rest, limits, Bad(e));
    ScansIs(d, 0, 0, limits, Bad(e));
  }

  /** Replay accepts what validation without limits accepts and the limits admit. */
  lemma ReplayAccepts(d: seq<byte>)
    ensures Frames(d, REPLAY).Good?
            <==> match Frames(d, NO_LIMITS)
                 case Bad(_) => false
                 case Good(fs) => |fs| <= 1_048_576 && Total(fs) <= 268_435_456
    ensures Frames(d, REPLAY).Good? ==> Frames(d, REPLAY) == Frames(d, NO_LIMITS)
  {
    if Frames(d, REPLAY).Good? {
      AcceptedExactly(d, Frames(d, REPLAY).frames, REPLAY);
      AcceptedExactly(d, Frames(d, REPLAY).frames, NO_LIMITS);
    }
    if Frames(d, NO_LIMITS).Good? {
      AcceptedExactly(d, Frames(d, NO_LIMITS).frames, NO_LIMITS);
      AcceptedExactly(d, Frames(d, NO_LIMITS).frames, REPLAY);
    }
  }

  // ---------------------------------------------------------------- the recorder

  /** Which steps of a write succeed: bytes through before a failure, the sync, the metadata line. */
  datatype WriteEnv = WriteEnv(torn: Option<nat>, synced: bool, noted: bool)

  datatype Verdict = Recorded | Closed | FailedBefore | Oversized | FailedNow

  class Recorder {
    var data: seq<byte>
    var open: bool
    var failed: bool
    var nextIndex: nat
    var bytesWritten: nat
    ghost var frames: seq<Frame>

    ghost predicate Valid()
      reads this
    {
      && Small(frames) && Within(REPLAY, |frames|, Total(frames))
      && (!failed ==> data == Framing(frames) && nextIndex == |frames| && bytesWritten == Total(frames))
    }

    constructor ()
      ensures Valid() && open && !failed && frames == []
    {
      data, open, failed, nextIndex, bytesWritten, frames := [], true, false, 0, 0, [];
    }

    /** WriteFrame: a frame within the limits is recorded whole, or the recorder has failed for good. */
    method WriteFrame(frame: Frame, env: WriteEnv) returns (verdict: Verdict)
      requires Valid()
      modifies this
      ensures Valid() && open == old(open) && failed == (old(failed) || verdict.FailedNow?)
      ensures frames == if verdict.Recorded? then old(frames) + [frame] else old(frames)
      ensures verdict == if !open then Closed else if old(failed) then FailedBefore else if |frame| > MAX_FRAME then Oversized
                         else if Within(REPLAY, |old(frames)| + 1, Total(old(frames)) + |frame|)
                                 && env.torn.None? && env.synced && env.noted then Recorded
                         else FailedNow
    {
      if !open { return Closed; }
      if failed { return FailedBefore; }
      if |frame| > MAX_FRAME { return Oversized; }
      if bytesWritten + |frame| > MAX_BYTES || nextIndex >= MAX_FRAMES {
        failed := true;
        return FailedNow;
      }
      var ok := Record(frame, env);
      return if ok then Recorded else FailedNow;
    }

    /** The writing half of WriteFrame: data, then metadata. */
    method Record(frame: Frame, env: WriteEnv) returns (ok: bool)
      requires Valid() && !failed && |frame| <= MAX_FRAME && Within(REPLAY, |frames| + 1, Total(frames) + |frame|)
      modifies this`data, this`failed, this`nextIndex, this`bytesWritten, this`frames
      ensures Valid() && failed == !ok && frames == if ok then old(frames) + [frame] else old(frames)
      ensures ok <==> env.torn.None? && env.synced && env.noted
    {
      TotalMore(frames, frame);
      SmallMore(frames, frame);
      ok := Append(frame, env);
      if ok {
        nextIndex := nextIndex + 1;
        ok := env.noted;
      }
      failed := !ok;
      if ok {
        bytesWritten := bytesWritten + |frame|;
        frames := frames + [frame];
      }
    }

    /** Length and frame, flushed and synced. */
    method Append(frame: Frame, env: WriteEnv) returns (ok: bool)
      modifies this`data
      ensures ok <==> env.torn.None? && env.synced
      ensures ok ==> data == old(data) + Framed(frame)
    {
      var record := Framed(frame);
      if env.torn.Some? {
        data := data + record[..if env.torn.value < |record| then env.torn.value else |record|];
        return false;
      }
      data := data + record;
      return env.synced;
    }

    /**
     Close: a recorder that has not failed publishes its temporary files once, and what readers
     then find replays exactly; one that has failed changes nothing that readers see.
     */
    method Close(disk: Publication.Disk, flushed: bool, removed: bool, metaRemoved: bool, env: Publication.Env)
      returns (published: bool)
      requires Valid() && (open && disk.capture.temp.Some? ==> disk.capture.temp.value == data)
      modifies this`open, disk
      ensures Valid() && !open
      ensures !old(open) ==> !published && disk.View() == old(disk.View())
      ensures old(open) && (failed || !flushed) ==> !published && Publication.SamePair(old(disk.View()), disk.View())
      ensures old(open) && !failed && flushed ==> (disk.View(), published) == Publication.Published(old(disk.View()), env)
      ensures published ==> disk.capture.current.Some? && Frames(disk.capture.current.value, REPLAY) == Good(frames)
    {
      if !open { return false; }
      open := false;
      if failed || !flushed {
        disk.Discard(removed, metaRemoved);
        return false;
      }
      AcceptedExactly(data, frames, REPLAY);
      Publication.PublishedExactly(disk.View(), env);
      published := disk.PublishGeneration(env);
    }
  }
}
