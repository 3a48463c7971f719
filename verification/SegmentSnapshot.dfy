/**
 Replay of a segmented capture through a plain snapshot: snapshotSegmentsContext copies every
 record it reads into the plain format, within the replay limits, and ReplayEachContext submits
 frames only once the copy is complete.
 */
module SegmentSnapshot {
  import opened Prelude
  import Records
  import Segmented
  import opened CaptureFormat
  import opened Capture

  function Payloads(frames: seq<Records.Frame>): (p: seq<Frame>)
    ensures |p| == |frames|
  {
    if frames == [] then [] else Payloads(frames[..|frames| - 1]) + [frames[|frames| - 1].payload]
  }

  /** The payloads of the frames, one by one. */
  lemma {:induction false} PayloadsExact(frames: seq<Records.Frame>)
    ensures forall i | 0 <= i < |frames| :: Payloads(frames)[i] == frames[i].payload
    decreases |frames|
  {
    if frames != [] {
      PayloadsExact(frames[..|frames| - 1]);
    }
  }

  lemma PayloadsMore(frames: seq<Records.Frame>, f: Records.Frame)
    ensures Payloads(frames + [f]) == Payloads(frames) + [f.payload]
  {
    assert (frames + [f])[..|frames|] == frames;
  }

  lemma {:induction false} PayloadsConcat(a: seq<Records.Frame>, b: seq<Records.Frame>)
    ensures Payloads(a + b) == Payloads(a) + Payloads(b)
    decreases |b|
  {
    if b == [] {
      assert a + b == a;
    } else {
      var n := |b| - 1;
      PayloadsConcat(a, b[..n]);
      assert a + b == (a + b[..n]) + [b[n]];
      PayloadsMore(a + b[..n], b[n]);
      assert Payloads(a) + (Payloads(b[..n]) + [b[n].payload]) == Payloads(a) + Payloads(b[..n]) + [b[n].payload];
    }
  }

  lemma {:induction false} TotalGrows(frames: seq<Frame>, n: nat)
    requires n <= |frames|
    ensures Total(frames[..n]) <= Total(frames)
    decreases |frames|
  {
    if n < |frames| {
      TotalGrows(frames[..|frames| - 1], n);
      assert frames[..|frames| - 1][..n] == frames[..n];
    } else {
      assert frames[..n] == frames;
    }
  }

  predicate InLimits(frames: seq<Frame>) { Within(REPLAY, |frames|, Total(frames)) }

  /** Frames over the limits stay over them, whatever follows. */
  lemma OverStaysOver(frames: seq<Frame>, more: seq<Frame>)
    requires !InLimits(frames)
    ensures !InLimits(frames + more)
  {
    assert (frames + more)[..|frames|] == frames;
    TotalGrows(frames + more, |frames|);
  }

  /** writeSegmentSnapshotRecord: one more frame, unless it passes the limits. */
  method WriteSnapshotRecord(snapshot: Sink, frames: nat, bytes: nat, frame: Frame, ghost done: seq<Frame>) returns (error: Option<Error>)
    requires frames == |done| + 1 && bytes == Total(done) + |frame|
    modifies snapshot
    ensures error.None? ==> snapshot.data == old(snapshot.data) + Framed(frame)
    ensures error != Some(SinkFailed) ==> (error.None? <==> InLimits(done + [frame]))
  {
    TotalMore(done, frame);
    if frames > MAX_FRAMES { return Some(TooManyFrames); }
    if bytes > MAX_BYTES { return Some(CaptureTooLarge); }
    var ok := WriteAll(snapshot, Records.Be(|frame|, 4));
    if !ok { return Some(SinkFailed); }
    ok := WriteAll(snapshot, frame);
    if !ok { return Some(SinkFailed); }
    return None;
  }

  /** The snapshot so far holds exactly these frames. */
  ghost predicate Copied(data: seq<byte>, done: seq<Frame>) {
    data == Framing(done) && Small(done) && InLimits(done)
  }

  lemma CopiedMore(data: seq<byte>, done: seq<Frame>, f: Frame)
    requires Copied(data, done) && |f| <= MAX_FRAME && InLimits(done + [f])
    ensures Copied(data + Framed(f), done + [f])
  {
    TotalMore(done, f);
    SmallMore(done, f);
  }

  lemma PayloadTurn(done: seq<Frame>, here: seq<Records.Frame>, f: Records.Frame, rest: seq<Records.Frame>)
    ensures var all := done + Payloads(here);
            && done + Payloads(here + [f]) == all + [f.payload]
            && Total(all + [f.payload]) == Total(all) + |f.payload|
            && (!InLimits(all + [f.payload]) ==> !InLimits(done + Payloads(here + [f] + rest)))
  {
    PayloadsMore(here, f);
    TotalMore(done + Payloads(here), f.payload);
    assert done + Payloads(here) + [f.payload] == done + (Payloads(here) + [f.payload]);
    Exceeds(done, here + [f], rest);
  }

  /**
   replaySegmentRecords of one segment with the copying callback: every frame the segment
   replays is copied behind done, and then its end, or the corrupt record, is found.
   */
  method CopySegment(sum: Records.Checksum, d: seq<byte>, snapshot: Sink, ghost done: seq<Frame>, frames: nat, bytes: nat)
    returns (error: Option<Error>, frames': nat, bytes': nat)
    requires Copied(snapshot.data, done) && frames == |done| && bytes == Total(done)
    modifies snapshot
    ensures var all := done + Payloads(Records.Replay(sum, d).frames);
            && (error.None? ==> Copied(snapshot.data, all) && frames' == |all| && bytes' == Total(all))
            && (error != Some(SinkFailed) ==> (error.None? <==> Records.Replay(sum, d).clean && InLimits(all)))
  {
    var submitted, ending := Records.ReplaySegmentRecords(sum, d, None);
    SmallFrames(sum, d);
    error, frames', bytes' := CopyFrames(submitted, snapshot, done, frames, bytes);
    if error.None? && ending.CorruptRecord? {
      error := Some(Truncated);
    }
  }

  method CopyFrames(submitted: seq<Records.Frame>, snapshot: Sink, ghost done: seq<Frame>, frames: nat, bytes: nat)
    returns (error: Option<Error>, frames': nat, bytes': nat)
    requires Copied(snapshot.data, done) && frames == |done| && bytes == Total(done)
    requires forall f | f in submitted :: |f.payload| <= MAX_FRAME
    modifies snapshot
    ensures var all := done + Payloads(submitted);
            && (error.None? ==> Copied(snapshot.data, all) && frames' == |all| && bytes' == Total(all))
            && (error != Some(SinkFailed) ==> (error.None? <==> InLimits(all)))
  {
    frames', bytes' := frames, bytes;
    assert done + [] == done;
    for k := 0 to |submitted|
      invariant Copied(snapshot.data, done + Payloads(submitted[..k]))
      invariant frames' == |done + Payloads(submitted[..k])| && bytes' == Total(done + Payloads(submitted[..k]))
    {
      CopyTurn(done, submitted, k, snapshot.data);
      var payload := submitted[k].payload;
      frames', bytes' := frames' + 1, bytes' + |payload|;
      error := WriteSnapshotRecord(snapshot, frames', bytes', payload, done + Payloads(submitted[..k]));
      if error.Some? { return; }
    }
    assert submitted[..|submitted|] == submitted;
    error := None;
  }

  /** One more frame is copied, or passes the limits for good. */
  lemma CopyTurn(done: seq<Frame>, submitted: seq<Records.Frame>, k: nat, data: seq<byte>)
    requires k < |submitted| && |submitted[k].payload| <= MAX_FRAME && Copied(data, done + Payloads(submitted[..k]))
    ensures var all, payload := done + Payloads(submitted[..k]), submitted[k].payload;
            && done + Payloads(submitted[..k + 1]) == all + [payload]
            && Total(all + [payload]) == Total(all) + |payload|
            && (if InLimits(all + [payload]) then Copied(data + Framed(payload), all + [payload])
                else !InLimits(done + Payloads(submitted)))
  {
    Split(submitted, k);
    CopyGrow(done, submitted[..k], submitted[k], submitted[k + 1..], data);
  }

  lemma Split(s: seq<Records.Frame>, k: nat)
    requires k < |s|
    ensures s[..k] + [s[k]] == s[..k + 1] && s[..k] + [s[k]] + s[k + 1..] == s
  {
  }

  lemma CopyGrow(done: seq<Frame>, here: seq<Records.Frame>, f: Records.Frame, rest: seq<Records.Frame>, data: seq<byte>)
    requires |f.payload| <= MAX_FRAME && Copied(data, done + Payloads(here))
    ensures var all := done + Payloads(here);
            && done + Payloads(here + [f]) == all + [f.payload]
            && Total(all + [f.payload]) == Total(all) + |f.payload|
            && (if InLimits(all + [f.payload]) then Copied(data + Framed(f.payload), all + [f.payload])
                else !InLimits(done + Payloads(here + [f] + rest)))
  {
    PayloadTurn(done, here, f, rest);
    if InLimits(done + Payloads(here) + [f.payload]) {
      CopiedMore(data, done + Payloads(here), f.payload);
    }
  }

  /** Whatever a segment replays is within the frame limit. */
  lemma {:induction false} SmallFrames(sum: Records.Checksum, d: seq<byte>)
    ensures forall f | f in Records.Replay(sum, d).frames :: |f.payload| <= MAX_FRAME
    decreases |d|
  {
    var next := Records.ReadRecord(sum, d);
    if next.Whole? {
      SmallFrames(sum, d[next.size..]);
    }
  }

  lemma Exceeds(done: seq<Frame>, here: seq<Records.Frame>, rest: seq<Records.Frame>)
    ensures !InLimits(done + Payloads(here)) ==> !InLimits(done + Payloads(here + rest))
  {
    PayloadsConcat(here, rest);
    assert done + Payloads(here) + Payloads(rest) == done + (Payloads(here) + Payloads(rest));
    if !InLimits(done + Payloads(here)) {
      OverStaysOver(done + Payloads(here), Payloads(rest));
    }
  }

  /** snapshotSegmentsContext: every segment in name order, up to the first thing wrong. */
  method SnapshotSegments(sum: Records.Checksum, files: seq<Segmented.Segment>, snapshot: Sink) returns (error: Option<Error>)
    requires snapshot.data == []
    modifies snapshot
    ensures var all := Segmented.ReplayAll(sum, files);
            && (error.None? ==> Copied(snapshot.data, Payloads(all.frames)))
            && (error != Some(SinkFailed) ==> (error.None? <==> all.clean && InLimits(Payloads(all.frames))))
  {
    ghost var here: seq<Records.Frame> := [];
    var frames, bytes := 0, 0;
    for k := 0 to |files|
      invariant Segmented.ReplayAll(sum, files) == Records.Before(here, Segmented.ReplayAll(sum, files[k..]))
      invariant Copied(snapshot.data, Payloads(here)) && frames == |Payloads(here)| && bytes == Total(Payloads(here))
    {
      FileTurn(sum, files, k, here);
      error, frames, bytes := CopySegment(sum, files[k].data, snapshot, Payloads(here), frames, bytes);
      if error.Some? { return; }
      here := here + Records.Replay(sum, files[k].data).frames;
    }
    assert here + [] == here;
    error := None;
  }

  /** One segment: its frames come next, and if they pass the limits or it is corrupt, so it is for the whole. */
  lemma FileTurn(sum: Records.Checksum, files: seq<Segmented.Segment>, k: nat, here: seq<Records.Frame>)
    requires k < |files| && Segmented.ReplayAll(sum, files) == Records.Before(here, Segmented.ReplayAll(sum, files[k..]))
    ensures var r := Records.Replay(sum, files[k].data);
            && Payloads(here) + Payloads(r.frames) == Payloads(here + r.frames)
            && (r.clean ==> Segmented.ReplayAll(sum, files) == Records.Before(here + r.frames, Segmented.ReplayAll(sum, files[k + 1..])))
            && (!r.clean ==> !Segmented.ReplayAll(sum, files).clean)
            && (!InLimits(Payloads(here + r.frames)) ==> !InLimits(Payloads(Segmented.ReplayAll(sum, files).frames)))
  {
    var r, rest := Records.Replay(sum, files[k].data), Segmented.ReplayAll(sum, files[k + 1..]);
    assert files[k..][1..] == files[k + 1..];
    PayloadsConcat(here, r.frames);
    Records.BeforeTwice(here, r.frames, rest);
    Exceeds([], here + r.frames, if r.clean then rest.frames else []);
    assert here + r.frames + [] == here + r.frames;
    assert forall p: seq<Frame> :: [] + p == p;
  }

  /** ReplayEachContext on a segmented capture. */
  method ReplayEachSegments(sum: Records.Checksum, files: seq<Segmented.Segment>, refused: Option<nat>)
    returns (error: Option<Error>, submitted: seq<Frame>)
    ensures error == Some(SinkFailed) ==> submitted == []
    ensures error != Some(SinkFailed) ==>
              var all := Segmented.ReplayAll(sum, files);
              var payloads := Payloads(all.frames);
              if !all.clean || !InLimits(payloads) then error.Some? && submitted == []
              else if refused.Some? && refused.value < |payloads|
              then error == Some(SubmitFailed) && submitted == payloads[..refused.value]
              else error == None && submitted == payloads
  {
    var snapshot := new Sink();
    error := SnapshotSegments(sum, files, snapshot);
    if error.Some? { return error, []; }
    AcceptedExactly(snapshot.data, Payloads(Segmented.ReplayAll(sum, files).frames), REPLAY);
    error, submitted := ReplaySnapshot(snapshot.data, refused);
  }
}
