/**
 The segmented recorder of internal/capture/segmented.go: a bounded queue, and one writer
 that fills segments, publishes them under rising indices and removes the oldest.

 `files` is the directory as the glob shows it, in name order; Names.dfy proves that this is
 index order. Every system call may fail: `Env` says which do, call by call.
 */
module Segmented {
  import opened Prelude
  import opened Records
  import opened Names

  datatype Segment = Segment(index: nat, data: seq<byte>)

  datatype Options = Options(maxBytes: nat, retain: int, minFree: nat, depth: int)

  function Normalized(o: Options): (n: Options)
    ensures n.retain > 0 && n.depth > 0 && n.maxBytes > 0
  {
    Options(if o.maxBytes == 0 then 0x400_0000 else o.maxBytes, if o.retain <= 0 then 4 else o.retain,
            o.minFree, if o.depth <= 0 then 128 else o.depth)
  }

  /** A queued frame; stamp is the 64-bit pattern of its time. */
  datatype Request = Request(payload: seq<byte>, direction: string, stamp: nat)

  function EncodeDirection(direction: string): byte {
    if direction == "upstream" then 1 else if direction == "downstream" then 2 else 0
  }

  /** The frame a request becomes as the n-th of the session; the stored index is 64 bits wide. */
  function FrameOf(r: Request, n: nat): Frame {
    Frame(r.payload, n % TWO_64, r.stamp % TWO_64, EncodeDirection(r.direction))
  }

  function FramesOf(requests: seq<Request>): (frames: seq<Frame>)
    ensures |frames| == |requests|
  {
    if requests == [] then []
    else
      var n := |requests| - 1;
      FramesOf(requests[..n]) + [FrameOf(requests[n], n)]
  }

  lemma FramesAppend(requests: seq<Request>, r: Request)
    ensures FramesOf(requests + [r]) == FramesOf(requests) + [FrameOf(r, |requests|)]
  {
    assert (requests + [r])[..|requests|] == requests;
  }

  /** What recording means: the frame holds the request's payload, number, time and direction. */
  predicate Recorded(f: Frame, r: Request, n: nat) {
    && f.payload == r.payload && f.index == n % TWO_64 && f.stamp == r.stamp % TWO_64
    && (f.direction == 1 <==> r.direction == "upstream") && (f.direction == 2 <==> r.direction == "downstream")
    && (f.direction == 0 <==> r.direction !in {"upstream", "downstream"})
  }

  lemma {:induction false} FramesRecorded(requests: seq<Request>, i: nat)
    requires i < |requests|
    ensures Recorded(FramesOf(requests)[i], requests[i], i)
    decreases |requests|
  {
    if i < |requests| - 1 {
      FramesRecorded(requests[..|requests| - 1], i);
    }
  }

  function Flatten(groups: seq<seq<Frame>>): seq<Frame> {
    if groups == [] then [] else Flatten(groups[..|groups| - 1]) + groups[|groups| - 1]
  }

  // ---------------------------------------------------------------- replay of a directory

  function ReplayAll(sum: Checksum, files: seq<Segment>): Replayed {
    if files == [] then Replayed([], true)
    else
      var r := Replay(sum, files[0].data);
      if r.clean then Before(r.frames, ReplayAll(sum, files[1..])) else r
  }

  /** ReplaySegments: segment by segment, up to the first corrupt one or the frame the callback refuses. */
  method ReplaySegments(sum: Checksum, files: seq<Segment>, refused: Option<nat>) returns (submitted: seq<Frame>, ending: Ending)
    ensures (submitted, ending) == Submission(ReplayAll(sum, files), refused)
  {
    submitted, ending := [], Clean;
    for i := 0 to |files|
      invariant ending.Clean? && (refused.Some? ==> |submitted| <= refused.value)
      invariant ReplayAll(sum, files) == Before(submitted, ReplayAll(sum, files[i..]))
    {
      var frames;
      frames, ending := ReplaySegmentRecords(sum, files[i].data, Left(refused, |submitted|));
      AllTurn(sum, files, i);
      FileSubmission(ReplayAll(sum, files), submitted, Replay(sum, files[i].data), ReplayAll(sum, files[i + 1..]), refused);
      submitted := submitted + frames;
      if !ending.Clean? { return; }
    }
    assert submitted + [] == submitted;
  }

  function Left(refused: Option<nat>, n: nat): Option<nat>
    requires refused.Some? ==> n <= refused.value
  {
    if refused.None? then None else Some(refused.value - n)
  }

  function Upon(r: Replayed, rest: Replayed): Replayed { if r.clean then Before(r.frames, rest) else r }

  lemma AllTurn(sum: Checksum, files: seq<Segment>, i: nat)
    requires i < |files|
    ensures ReplayAll(sum, files[i..]) == Upon(Replay(sum, files[i].data), ReplayAll(sum, files[i + 1..]))
  {
    assert files[i..][1..] == files[i + 1..];
  }

  /** What submitting one file adds to what is submitted of the files before it. */
  lemma FileSubmission(whole: Replayed, submitted: seq<Frame>, r: Replayed, rest: Replayed, refused: Option<nat>)
    requires refused.Some? ==> |submitted| <= refused.value
    requires whole == Before(submitted, Upon(r, rest))
    ensures var part := Submission(r, Left(refused, |submitted|));
            if part.1.Clean? then whole == Before(submitted + part.0, rest)
            else Submission(whole, refused) == (submitted + part.0, part.1)
  {
    if r.clean {
      BeforeTwice(submitted, r.frames, rest);
      Submitted(submitted, r, rest, refused);
    } else {
      assert r.frames + [] == r.frames;
      Submitted(submitted, r, Replayed([], false), refused);
    }
  }

  /** A refusal among the next frames is one among all. */
  lemma Submitted(submitted: seq<Frame>, r: Replayed, rest: Replayed, refused: Option<nat>)
    requires refused.Some? ==> |submitted| <= refused.value
    ensures refused.Some? && refused.value - |submitted| < |r.frames| ==>
              Submission(Before(submitted, Before(r.frames, rest)), refused)
              == (submitted + r.frames[..refused.value - |submitted|], Refused)
    ensures (refused.Some? ==> refused.value - |submitted| >= |r.frames|) && !rest.clean && rest.frames == [] ==>
              Submission(Before(submitted, Before(r.frames, rest)), refused) == (submitted + r.frames, CorruptRecord)
  {
    var all := submitted + (r.frames + rest.frames);
    if refused.Some? && refused.value - |submitted| < |r.frames| {
      assert all[..refused.value] == submitted + r.frames[..refused.value - |submitted|];
    }
    if rest.frames == [] {
      assert all == submitted + r.frames;
    }
  }

  /** The files hold these groups of frames. */
  predicate Holds(sum: Checksum, files: seq<Segment>, groups: seq<seq<Frame>>) {
    |files| == |groups| && forall i | 0 <= i < |files| :: Replay(sum, files[i].data) == Replayed(groups[i], true)
  }

  lemma {:induction false} FlattenConcat(a: seq<seq<Frame>>, b: seq<seq<Frame>>)
    ensures Flatten(a + b) == Flatten(a) + Flatten(b)
    decreases |b|
  {
    if b == [] {
      assert a + b == a;
    } else {
      var n := |b| - 1;
      FlattenConcat(a, b[..n]);
      assert (a + b)[..|a + b| - 1] == a + b[..n] && (a + b)[|a + b| - 1] == b[n];
      Associative(Flatten(a), Flatten(b[..n]), b[n]);
    }
  }

  lemma Associative<T>(a: seq<T>, b: seq<T>, c: seq<T>)
    ensures a + b + c == a + (b + c)
  {
  }

  lemma {:induction false} ReplayHeld(sum: Checksum, files: seq<Segment>, groups: seq<seq<Frame>>)
    requires Holds(sum, files, groups)
    ensures ReplayAll(sum, files) == Replayed(Flatten(groups), true)
    decreases |files|
  {
    if files != [] {
      ReplayHeld(sum, files[1..], groups[1..]);
      FlattenFront(groups);
    }
  }

  lemma FlattenFront(groups: seq<seq<Frame>>)
    requires groups != []
    ensures Flatten(groups) == groups[0] + Flatten(groups[1..])
  {
    FlattenConcat([groups[0]], groups[1..]);
    assert groups == [groups[0]] + groups[1..];
    assert [groups[0]][..0] == [];
  }

  // ---------------------------------------------------------------- the recorder's invariant

  /** The last n of the files. */
  function LastOf(files: seq<Segment>, n: nat): seq<Segment> {
    if |files| <= n then files else files[|files| - n..]
  }

  /** The segments of a session that the glob finds. */
  function Found(mine: seq<Segment>, start: nat): seq<Segment> {
    if |mine| + start <= LAST_NAME then mine else if start <= LAST_NAME then mine[..LAST_NAME - start] else []
  }

  /** Rising indices, which is name order for files the glob finds. */
  ghost predicate Sorted(files: seq<Segment>) {
    forall i, j | 0 <= i < j < |files| :: files[i].index < files[j].index
  }

  /**
   The recorder with its history: what the directory held at the start, and its latest index;
   what the queue took; the segments made of it, the frames in each, and the frames in the
   open one; how many of the oldest files are gone.
   */
  datatype State = State(
    files: seq<Segment>, queue: seq<Request>, index: nat, file: Option<seq<byte>>, size: nat, nextFrame: nat,
    base: seq<Segment>, start: nat, accepted: seq<Request>, mine: seq<Segment>, made: seq<seq<Frame>>,
    current: seq<Frame>, dropped: nat)

  function All(s: State): seq<Segment> { s.base + Found(s.mine, s.start) }

  /** The directory: what was there and what was published, less the oldest. */
  predicate Listed(s: State, retain: nat) {
    s.dropped <= |All(s)| && s.files == All(s)[s.dropped..] && (s.dropped > 0 ==> |s.files| >= retain)
  }

  predicate Retained(s: State, retain: nat) { s.mine != [] ==> s.files == LastOf(All(s), retain) }

  /** The file is the whole encoding of these frames, under this index and within the size limit. */
  predicate IsSegment(sum: Checksum, file: Segment, frames: seq<Frame>, index: nat, maxBytes: nat) {
    file.index == index && file.data == Encoded(sum, frames) && AllStorable(frames) && |file.data| <= maxBytes
  }

  /** The published segments are those made, under indices that follow each other. */
  ghost predicate Published(sum: Checksum, s: State, maxBytes: nat) {
    |s.mine| == |s.made| && forall i | 0 <= i < |s.mine| :: IsSegment(sum, s.mine[i], s.made[i], s.start + 1 + i, maxBytes)
  }

  /** They replay to the frames they were made of. */
  lemma PublishedHolds(sum: Checksum, s: State, maxBytes: nat)
    requires Published(sum, s, maxBytes)
    ensures Holds(sum, s.mine, s.made)
  {
    forall i | 0 <= i < |s.mine| ensures Replay(sum, s.mine[i].data) == Replayed(s.made[i], true) {
      assert IsSegment(sum, s.mine[i], s.made[i], s.start + 1 + i, maxBytes);
      ReplayEncoded(sum, s.made[i]);
    }
  }

  /** These frames are the first of the session. */
  ghost predicate First(frames: seq<Frame>, accepted: seq<Request>) {
    |frames| <= |accepted| && frames == FramesOf(accepted[..|frames|])
  }

  /** The open segment, and behind it the requests being written and waiting. */
  ghost predicate GoesOn(sum: Checksum, s: State, maxBytes: nat, taken: nat) {
    && s.index == s.start + |s.mine| + (if s.file.Some? then 1 else 0)
    && (if s.file.None? then s.current == []
        else s.file.value == Encoded(sum, s.current) && AllStorable(s.current) && s.size == |s.file.value| <= maxBytes)
    && s.nextFrame == |Flatten(s.made)| + |s.current| && First(Flatten(s.made) + s.current, s.accepted)
    && s.nextFrame + taken + |s.queue| == |s.accepted| && s.accepted[s.nextFrame + taken..] == s.queue
  }

  /** What holds whether or not the writer failed. */
  ghost predicate Sound(sum: Checksum, o: Options, s: State) {
    && o.maxBytes >= HEADER + MARKER && o.retain > 0 && o.depth > 0 && |s.queue| <= o.depth
    && s.start <= LAST_NAME && Sorted(s.base) && (forall f | f in s.base :: f.index <= s.start)
    && (forall r | r in s.accepted :: |r.payload| <= MAX_FRAME)
    && Listed(s, o.retain) && Published(sum, s, o.maxBytes) && First(Flatten(s.made), s.accepted)
  }

  /** And what holds in addition while it did not; taken counts the request being written. */
  ghost predicate Invariant(sum: Checksum, o: Options, s: State, ok: bool, taken: nat) {
    Sound(sum, o, s) && (ok ==> Retained(s, o.retain) && GoesOn(sum, s, o.maxBytes, taken))
  }

  lemma Queued(sum: Checksum, o: Options, s: State, ok: bool, r: Request)
    requires Invariant(sum, o, s, ok, 0) && |r.payload| <= MAX_FRAME && |s.queue| < o.depth
    ensures Invariant(sum, o, s.(queue := s.queue + [r], accepted := s.accepted + [r]), ok, 0)
  {
    FirstMore(Flatten(s.made), s.accepted, r);
    if ok {
      FirstMore(Flatten(s.made) + s.current, s.accepted, r);
    }
  }

  lemma FirstMore(frames: seq<Frame>, accepted: seq<Request>, r: Request)
    requires First(frames, accepted)
    ensures First(frames, accepted + [r])
  {
    assert (accepted + [r])[..|frames|] == accepted[..|frames|];
  }

  lemma Taken(sum: Checksum, o: Options, s: State, ok: bool)
    requires Invariant(sum, o, s, ok, 0) && s.queue != []
    ensures Invariant(sum, o, s.(queue := s.queue[1..]), ok, 1)
    ensures ok ==> s.nextFrame < |s.accepted| && s.accepted[s.nextFrame] == s.queue[0]
  {
  }

  lemma Opened(sum: Checksum, o: Options, s: State, taken: nat)
    requires Invariant(sum, o, s, true, taken) && s.file.None?
    ensures Invariant(sum, o, s.(index := s.index + 1, file := Some([]), size := 0), true, taken)
  {
  }

  /** The state once the open segment was renamed to its name, which the glob finds up to the last of six digits. */
  function Renamed(s: State): State
    requires s.file.Some?
  {
    var segment := Segment(s.index, s.file.value);
    s.(file := None, size := 0, files := if s.index <= LAST_NAME then s.files + [segment] else s.files,
       mine := s.mine + [segment], made := s.made + [s.current], current := [])
  }

  lemma FoundMore(mine: seq<Segment>, start: nat, s: Segment)
    requires start <= LAST_NAME
    ensures Found(mine + [s], start) == if start + |mine| + 1 <= LAST_NAME then Found(mine, start) + [s] else Found(mine, start)
  {
  }

  lemma ListedMore(s: State, retain: nat)
    requires s.start <= LAST_NAME && s.file.Some? && s.index == s.start + |s.mine| + 1 && Listed(s, retain)
    ensures Listed(Renamed(s), retain)
  {
    FoundMore(s.mine, s.start, Segment(s.index, s.file.value));
    assert s.base + (Found(s.mine, s.start) + [Segment(s.index, s.file.value)]) == All(s) + [Segment(s.index, s.file.value)];
  }

  lemma ReplayEncoded(sum: Checksum, frames: seq<Frame>)
    requires AllStorable(frames)
    ensures Replay(sum, Encoded(sum, frames)) == Replayed(frames, true)
  {
    ReplayRecords(sum, frames, []);
    assert Encoded(sum, frames) + [] == Encoded(sum, frames);
    assert frames + [] == frames;
  }

  lemma FlattenMore(made: seq<seq<Frame>>, frames: seq<Frame>)
    ensures Flatten(made + [frames]) == Flatten(made) + frames
  {
    assert (made + [frames])[..|made|] == made;
  }

  lemma PublishedMore(sum: Checksum, s: State, maxBytes: nat)
    requires Published(sum, s, maxBytes) && s.file.Some? && s.index == s.start + |s.mine| + 1
    requires s.file.value == Encoded(sum, s.current) && AllStorable(s.current) && |s.file.value| <= maxBytes
    ensures Published(sum, Renamed(s), maxBytes)
  {
    assert IsSegment(sum, Segment(s.index, s.file.value), s.current, s.index, maxBytes);
  }

  /** Renaming publishes the open segment whole. */
  lemma RenamedSound(sum: Checksum, o: Options, s: State, taken: nat)
    requires Invariant(sum, o, s, true, taken) && s.file.Some?
    ensures Sound(sum, o, Renamed(s))
  {
    ListedMore(s, o.retain);
    PublishedMore(sum, s, o.maxBytes);
    FlattenMore(s.made, s.current);
  }

  lemma RenamedGoesOn(sum: Checksum, s: State, maxBytes: nat, taken: nat)
    requires GoesOn(sum, s, maxBytes, taken) && s.file.Some?
    ensures GoesOn(sum, Renamed(s), maxBytes, taken)
  {
    FlattenMore(s.made, s.current);
    assert Flatten(s.made) + s.current + [] == Flatten(s.made) + s.current;
  }

  /** What happens to the open segment does not touch the published ones. */
  lemma Unpublished(sum: Checksum, o: Options, s: State, file: Option<seq<byte>>, size: nat, taken: nat)
    requires Sound(sum, o, s)
    ensures Invariant(sum, o, s.(file := file, size := size), false, taken)
  {
  }

  lemma {:induction false} EncodedMore(sum: Checksum, frames: seq<Frame>, f: Frame)
    ensures Encoded(sum, frames + [f]) == Encoded(sum, frames) + Record(sum, f)
    decreases |frames|
  {
    if frames == [] {
      assert frames + [f] == [f];
      assert [f][1..] == [];
    } else {
      EncodedMore(sum, frames[1..], f);
      assert (frames + [f])[0] == frames[0] && (frames + [f])[1..] == frames[1..] + [f];
      Associative(Record(sum, frames[0]), Encoded(sum, frames[1..]), Record(sum, f));
    }
  }

  /** The state once the record of a request is written through. */
  function Written(sum: Checksum, s: State, r: Request): State
    requires s.file.Some?
  {
    var f := FrameOf(r, s.nextFrame);
    s.(file := Some(s.file.value + Record(sum, f)), size := s.size + RecordSize(r.payload),
       nextFrame := s.nextFrame + 1, current := s.current + [f])
  }

  lemma WrittenOpen(sum: Checksum, s: State, r: Request, maxBytes: nat)
    requires s.file.Some? && s.file.value == Encoded(sum, s.current) && AllStorable(s.current) && s.size == |s.file.value|
    requires s.size + RecordSize(r.payload) <= maxBytes && |r.payload| <= MAX_FRAME
    ensures var s' := Written(sum, s, r);
            s'.file.value == Encoded(sum, s'.current) && AllStorable(s'.current) && s'.size == |s'.file.value| <= maxBytes
  {
    EncodedMore(sum, s.current, FrameOf(r, s.nextFrame));
  }

  lemma FirstNext(frames: seq<Frame>, current: seq<Frame>, accepted: seq<Request>)
    requires First(frames + current, accepted) && |frames + current| < |accepted|
    ensures var n := |frames + current|; First(frames + (current + [FrameOf(accepted[n], n)]), accepted)
  {
    var n := |frames + current|;
    assert accepted[..n + 1] == accepted[..n] + [accepted[n]];
    FramesAppend(accepted[..n], accepted[n]);
    assert frames + (current + [FrameOf(accepted[n], n)]) == frames + current + [FrameOf(accepted[n], n)];
  }

  lemma WrittenGoesOn(sum: Checksum, o: Options, s: State, r: Request)
    requires Invariant(sum, o, s, true, 1) && s.file.Some? && s.accepted[s.nextFrame] == r
    requires s.size + RecordSize(r.payload) <= o.maxBytes
    ensures Invariant(sum, o, Written(sum, s, r), true, 0)
  {
    assert r in s.accepted;
    WrittenSound(sum, o, s, r);
    OneWritten(sum, s, o.maxBytes, r);
  }

  lemma WrittenSound(sum: Checksum, o: Options, s: State, r: Request)
    requires Sound(sum, o, s) && s.file.Some?
    ensures Sound(sum, o, Written(sum, s, r))
  {
  }

  lemma OneWritten(sum: Checksum, s: State, maxBytes: nat, r: Request)
    requires GoesOn(sum, s, maxBytes, 1) && s.file.Some? && s.accepted[s.nextFrame] == r
    requires |r.payload| <= MAX_FRAME && s.size + RecordSize(r.payload) <= maxBytes
    ensures GoesOn(sum, Written(sum, s, r), maxBytes, 0)
  {
    WrittenOpen(sum, s, r, maxBytes);
    FirstNext(Flatten(s.made), s.current, s.accepted);
  }

  /** With the queue drained and the last segment published, every accepted frame is published. */
  lemma AllPublished(sum: Checksum, o: Options, s: State)
    requires GoesOn(sum, s, o.maxBytes, 0) && s.queue == [] && s.current == []
    ensures Flatten(s.made) == FramesOf(s.accepted)
  {
    assert s.accepted[..s.nextFrame] == s.accepted;
    assert Flatten(s.made) + [] == Flatten(s.made);
  }

  /** Removing the oldest files keeps the rest. */
  lemma Removed(sum: Checksum, o: Options, s: State, left: seq<Segment>, gone: nat, taken: nat)
    requires Sound(sum, o, s) && GoesOn(sum, s, o.maxBytes, taken)
    requires gone <= |s.files| && left == s.files[gone..] && (gone > 0 ==> |left| >= o.retain)
    ensures Invariant(sum, o, s.(files := left, dropped := s.dropped + gone), left == LastOf(s.files, o.retain), taken)
  {
    RemovedListed(s, left, gone, o.retain);
  }

  lemma RemovedListed(s: State, left: seq<Segment>, gone: nat, retain: nat)
    requires Listed(s, retain) && gone <= |s.files| && left == s.files[gone..] && (gone > 0 ==> |left| >= retain)
    ensures var s' := s.(files := left, dropped := s.dropped + gone);
            Listed(s', retain) && (left == LastOf(s.files, retain) ==> Retained(s', retain))
  {
  }

  // ---------------------------------------------------------------- the invariant, sealed

  /**
   The invariant as the recorder's methods hand it on. They never look inside: the quantifier
   stays shut until a lemma below asks.
   */
  ghost predicate Sealed(sum: Checksum, o: Options, s: State, ok: bool, taken: nat) {
    forall question: nat {:trigger Asked(question)} | Asked(question) :: Invariant(sum, o, s, ok, taken)
  }

  lemma Unseal(sum: Checksum, o: Options, s: State, ok: bool, taken: nat)
    requires Sealed(sum, o, s, ok, taken)
    ensures Invariant(sum, o, s, ok, taken)
  {
    assert Asked(0);
  }

  lemma SealStart(sum: Checksum, o: Options, directory: seq<Segment>, latest: nat)
    requires o.maxBytes >= HEADER + MARKER && o.retain > 0 && o.depth > 0 && latest <= LAST_NAME
    requires Sorted(directory) && forall f | f in directory :: f.index <= latest
    ensures Sealed(sum, o, State(directory, [], latest, None, 0, 0, directory, latest, [], [], [], [], 0), true, 0)
  {
  }

  lemma SealQueued(sum: Checksum, o: Options, s: State, r: Request)
    requires Sealed(sum, o, s, true, 0) && |r.payload| <= MAX_FRAME && |s.queue| < o.depth
    ensures Sealed(sum, o, s.(queue := s.queue + [r], accepted := s.accepted + [r]), true, 0)
  {
    Unseal(sum, o, s, true, 0);
    Queued(sum, o, s, true, r);
  }

  lemma SealTaken(sum: Checksum, o: Options, s: State, ok: bool)
    requires Sealed(sum, o, s, ok, 0) && s.queue != []
    ensures Sealed(sum, o, s.(queue := s.queue[1..]), ok, 1)
    ensures ok ==> s.nextFrame < |s.accepted| && s.accepted[s.nextFrame] == s.queue[0]
  {
    Unseal(sum, o, s, ok, 0);
    Taken(sum, o, s, ok);
  }

  lemma SealOpened(sum: Checksum, o: Options, s: State, taken: nat)
    requires Sealed(sum, o, s, true, taken) && s.file.None?
    ensures Sealed(sum, o, s.(index := s.index + 1, file := Some([]), size := 0), true, taken)
    ensures Sealed(sum, o, s.(index := s.index + 1), false, taken)
  {
    Unseal(sum, o, s, true, taken);
    Opened(sum, o, s, taken);
  }

  /** What becomes of the open segment after a failure is of no matter. */
  lemma SealFailed(sum: Checksum, o: Options, s: State, ok: bool, taken: nat, file: Option<seq<byte>>, size: nat)
    requires Sealed(sum, o, s, ok, taken)
    ensures Sealed(sum, o, s.(file := file, size := size), false, 0) && Sealed(sum, o, s.(file := file, size := size), false, taken)
  {
    Unseal(sum, o, s, ok, taken);
    Unpublished(sum, o, s, file, size, 0);
  }

  /** The state behind finishSegment: the open segment is published, and these files are left. */
  function Finished(s: State, left: seq<Segment>, gone: nat): State
    requires s.file.Some?
  {
    s.(file := None, size := 0, files := left, mine := s.mine + [Segment(s.index, s.file.value)],
       made := s.made + [s.current], current := [], dropped := s.dropped + gone)
  }

  lemma SealPublished(sum: Checksum, o: Options, s: State, left: seq<Segment>, gone: nat, ok: bool, taken: nat)
    requires Sealed(sum, o, s, true, taken) && s.file.Some? && o.retain > 0
    requires Trimmed(Renamed(s).files, left, gone, o.retain, ok)
    ensures Sealed(sum, o, Finished(s, left, gone), ok, taken)
  {
    SealRenamed(sum, o, s, taken);
    SealRemoved(sum, o, Renamed(s), Finished(s, left, gone), gone, ok, taken);
  }

  /** Of the files the oldest are gone, but none of those to be kept; all others, if the removals succeeded. */
  predicate Trimmed(files: seq<Segment>, left: seq<Segment>, gone: nat, retain: nat, ok: bool) {
    gone <= |files| && left == files[gone..] && (gone > 0 ==> |left| >= retain) && (ok ==> left == LastOf(files, retain))
  }

  /** Between renaming and removing, more files than are to be kept may be there; sealed. */
  ghost predicate Crowded(sum: Checksum, o: Options, s: State, taken: nat) {
    forall question: nat {:trigger Asked(question)} | Asked(question) :: Sound(sum, o, s) && GoesOn(sum, s, o.maxBytes, taken)
  }

  lemma SealRenamed(sum: Checksum, o: Options, s: State, taken: nat)
    requires Sealed(sum, o, s, true, taken) && s.file.Some?
    ensures Crowded(sum, o, Renamed(s), taken)
  {
    Unseal(sum, o, s, true, taken);
    RenamedSound(sum, o, s, taken);
    RenamedGoesOn(sum, s, o.maxBytes, taken);
  }

  lemma SealRemoved(sum: Checksum, o: Options, s: State, after: State, gone: nat, ok: bool, taken: nat)
    requires Crowded(sum, o, s, taken) && o.retain > 0
    requires Trimmed(s.files, after.files, gone, o.retain, ok)
    requires after == s.(files := after.files, dropped := s.dropped + gone)
    ensures Sealed(sum, o, after, ok, taken)
  {
    assert Asked(0);
    Removed(sum, o, s, after.files, gone, taken);
    Reseal(sum, o, after, after.files == LastOf(s.files, o.retain), ok, taken);
  }

  lemma Reseal(sum: Checksum, o: Options, s: State, good: bool, ok: bool, taken: nat)
    requires Invariant(sum, o, s, good, taken) && (ok ==> good)
    ensures Sealed(sum, o, s, ok, taken)
  {
  }

  lemma SealedNone(sum: Checksum, o: Options, s: State, taken: nat)
    requires Sealed(sum, o, s, true, taken) && s.file.None?
    ensures s.current == []
  {
    Unseal(sum, o, s, true, taken);
  }

  lemma SealWritten(sum: Checksum, o: Options, s: State, r: Request)
    requires Sealed(sum, o, s, true, 1) && s.file.Some? && s.nextFrame < |s.accepted| && s.accepted[s.nextFrame] == r
    requires s.size + RecordSize(r.payload) <= o.maxBytes
    ensures Sealed(sum, o, Written(sum, s, r), true, 0)
  {
    Unseal(sum, o, s, true, 1);
    WrittenGoesOn(sum, o, s, r);
  }

  lemma SealedAll(sum: Checksum, o: Options, s: State)
    requires Sealed(sum, o, s, true, 0) && s.queue == [] && s.current == []
    ensures Flatten(s.made) == FramesOf(s.accepted)
  {
    Unseal(sum, o, s, true, 0);
    AllPublished(sum, o, s);
  }

  // ---------------------------------------------------------------- the recorder

  /** Which system calls succeed while a segment is finished; removed counts removals before one fails. */
  datatype FinishEnv = FinishEnv(flushed: bool, synced: bool, closed: bool, renamed: bool, listed: bool, removed: Option<nat>)

  /** The same for a write: free disk space if it can be read, bytes written before a failure. */
  datatype Env = Env(finish: FinishEnv, created: bool, free: Option<nat>, torn: Option<nat>, synced: bool)

  datatype Verdict = Accepted | TooLarge | Closed | Failed | Backpressure

  /** Finishing an open segment succeeds: all calls do, the removals as far as there are any to make. */
  predicate Finishes(env: FinishEnv, files: int, index: nat, retain: int) {
    && env.flushed && env.synced && env.closed && env.renamed && env.listed
    && (env.removed == None || files + (if index <= 999_999 then 1 else 0) - retain <= env.removed.value)
  }

  /**
   Writing the request succeeds: its record fits a segment; the open segment, if it has no room,
   is finished; a new one, if there is none then, is created; the disk has room; and the write
   goes through.
   */
  predicate Writes(o: Options, s: State, r: Request, env: Env) {
    var n := |r.payload| + 29;
    var full := s.file != None && s.size + n > o.maxBytes;
    && n <= o.maxBytes && (full ==> Finishes(env.finish, |s.files|, s.index, o.retain))
    && (full || s.file == None ==> env.created)
    && env.free != None && o.minFree + n <= env.free.value && env.torn == None && env.synced
  }

  /** The record of the n-th request, whole, is written behind what the open segment held. */
  ghost predicate Appends(sum: Checksum, held: seq<byte>, frames: seq<Frame>, r: Request, n: nat,
                          file: Option<seq<byte>>, current: seq<Frame>)
  {
    && |current| == |frames| + 1 && current[..|frames|] == frames && Recorded(current[|frames|], r, n)
    && file == Some(held + Record(sum, current[|frames|]))
  }

  /** retainSegments: removal after removal, oldest first, until one fails. */
  method RetainSegments(files: seq<Segment>, retain: nat, removed: Option<nat>)
    returns (left: seq<Segment>, ghost gone: nat, ok: bool)
    ensures gone <= |files| && left == files[gone..] && (gone > 0 ==> |left| >= retain)
    ensures ok <==> left == LastOf(files, retain)
    ensures ok <==> removed == None || |files| - retain <= removed.value
  {
    left, gone := files, 0;
    while |left| > retain
      invariant gone <= |files| && left == files[gone..] && (gone > 0 ==> |left| >= retain)
      invariant removed != None ==> gone <= removed.value
      decreases |left|
    {
      if removed == Some(|files| - |left|) { return left, gone, false; }
      left, gone := left[1..], gone + 1;
    }
    return left, gone, true;
  }

  /** latestSegmentIndex: the highest index the glob finds, 0 if none. */
  method LatestSegmentIndex(files: seq<Segment>) returns (latest: nat)
    ensures forall f | f in files :: f.index <= latest
    ensures latest == 0 || exists f :: f in files && f.index == latest
  {
    latest := 0;
    for i := 0 to |files|
      invariant forall f | f in files[..i] :: f.index <= latest
      invariant latest == 0 || exists f :: f in files && f.index == latest
    {
      assert files[..i + 1] == files[..i] + [files[i]];
      if files[i].index > latest { latest := files[i].index; }
    }
    assert files[..|files|] == files;
  }

  /** What StartSegmented meets: the parent's kind if it can be read, its creation, the lock, disk query and glob. */
  datatype StartEnv = StartEnv(isDirectory: Option<bool>, made: bool, lock: Lock, diskRead: bool, globbed: bool)

  datatype Lock = Free | Held | Unopened

  datatype StartError = TooSmall | StatFailed | NotDirectory | NotMade | InUse | LockFailed | DiskFailed | GlobFailed

  /** The first thing wrong, in the order of the checks. */
  function StartVerdict(o: Options, env: StartEnv): Option<StartError> {
    if Normalized(o).maxBytes < HEADER + MARKER then Some(TooSmall)
    else if env.isDirectory.None? then Some(StatFailed)
    else if !env.isDirectory.value then Some(NotDirectory)
    else if !env.made then Some(NotMade)
    else if env.lock.Held? then Some(InUse)
    else if env.lock.Unopened? then Some(LockFailed)
    else if !env.diskRead then Some(DiskFailed)
    else if !env.globbed then Some(GlobFailed)
    else None
  }

  /** Options that say nothing take 64 MiB a segment, four segments kept, and a queue of 128. */
  lemma Defaults(o: Options)
    ensures var n := Normalized(o);
            && n.minFree == o.minFree
            && (o.maxBytes > 0 ==> n.maxBytes == o.maxBytes) && (o.maxBytes == 0 ==> n.maxBytes == 67_108_864)
            && (o.retain > 0 ==> n.retain == o.retain) && (o.retain <= 0 ==> n.retain == 4)
            && (o.depth > 0 ==> n.depth == o.depth) && (o.depth <= 0 ==> n.depth == 128)
  {
  }

  /** What start checks, in its order, and the error of each check. */
  function StartChecks(o: Options, env: StartEnv): (checks: seq<(bool, StartError)>)
    ensures |checks| == 8
  {
    [(o.maxBytes == 0 || o.maxBytes >= 29, TooSmall), (env.isDirectory != None, StatFailed),
     (env.isDirectory != Some(false), NotDirectory), (env.made, NotMade), (env.lock != Held, InUse),
     (env.lock != Unopened, LockFailed), (env.diskRead, DiskFailed), (env.globbed, GlobFailed)]
  }

  /** Each error is reported exactly if its own check fails and all before it pass; a recorder starts exactly if all pass. */
  lemma StartExact(o: Options, env: StartEnv, i: nat)
    requires i < 8
    ensures var checks := StartChecks(o, env);
            && (StartVerdict(o, env) == None <==> forall j | 0 <= j < 8 :: checks[j].0)
            && (StartVerdict(o, env) == Some(checks[i].1) <==> !checks[i].0 && forall j | 0 <= j < i :: checks[j].0)
  {
    var checks := StartChecks(o, env);
    assert checks[0].0 && checks[1].0 && checks[2].0 && checks[3].0 && checks[4].0 && checks[5].0 && checks[6].0 && checks[7].0
      <==> forall j | 0 <= j < 8 :: checks[j].0;
    if StartVerdict(o, env).None? {
      assert checks[i].0;
    } else {
      var k := FirstFailing(o, env);
      assert i != k ==> checks[i].1 != checks[k].1;
    }
  }

  lemma FirstFailing(o: Options, env: StartEnv) returns (k: nat)
    requires StartVerdict(o, env).Some?
    ensures var checks := StartChecks(o, env);
            && k < 8 && !checks[k].0 && StartVerdict(o, env) == Some(checks[k].1)
            && forall j | 0 <= j < k :: checks[j].0
  {
    var checks := StartChecks(o, env);
    k := match StartVerdict(o, env).value
         case TooSmall => 0
         case StatFailed => 1
         case NotDirectory => 2
         case NotMade => 3
         case InUse => 4
         case LockFailed => 5
         case DiskFailed => 6
         case GlobFailed => 7;
    assert !checks[k].0;
  }

  /**
   StartSegmented. The lock is held behind it exactly by a recorder that started, or by whoever
   held it before. The directory is what the glob shows, so its indices are found ones.
   */
  method StartSegmented(sum: Checksum, options: Options, directory: seq<Segment>, env: StartEnv)
    returns (r: SegmentedRecorder?, error: Option<StartError>, locked: bool)
    requires Sorted(directory) && forall f | f in directory :: Globbed(Name(f.index))
    ensures error == StartVerdict(options, env) && (r == null <==> error.Some?)
    ensures locked == (r != null || env.lock.Held?)
    ensures r != null ==> fresh(r) && r.Valid() && !r.failed && !r.closing && r.opts == Normalized(options) && r.sum == sum
    ensures r != null ==> r.files == r.base == directory && r.accepted == [] && r.mine == [] && r.nextFrame == 0
  {
    r, error, locked := null, None, env.lock.Held?;
    if Normalized(options).maxBytes < HEADER + MARKER { return null, Some(TooSmall), locked; }
    if env.isDirectory.None? { return null, Some(StatFailed), locked; }
    if !env.isDirectory.value { return null, Some(NotDirectory), locked; }
    if !env.made { return null, Some(NotMade), locked; }
    match env.lock {
      case Held => return null, Some(InUse), locked;
      case Unopened => return null, Some(LockFailed), locked;
      case Free => locked := true;
    }
    if !env.diskRead {
      locked := false;
      return null, Some(DiskFailed), locked;
    }
    if !env.globbed {
      locked := false;
      return null, Some(GlobFailed), locked;
    }
    var latest := LatestSegmentIndex(directory);
    forall f | f in directory ensures f.index <= LAST_NAME {
      FoundUpTo(f.index);
    }
    r := new SegmentedRecorder(sum, options, directory, latest);
  }

  /** retainSegments with its glob, which may fail. */
  method Retain(shown: seq<Segment>, retain: nat, env: FinishEnv) returns (left: seq<Segment>, ghost gone: nat, ok: bool)
    ensures gone <= |shown| && left == shown[gone..] && (gone > 0 ==> |left| >= retain)
    ensures ok ==> left == LastOf(shown, retain)
    ensures ok <==> env.listed && (env.removed == None || |shown| - retain <= env.removed.value)
  {
    if env.listed {
      left, gone, ok := RetainSegments(shown, retain, env.removed);
    } else {
      left, gone, ok := shown, 0, false;
    }
  }

  class SegmentedRecorder {
    const sum: Checksum
    const opts: Options
    var files: seq<Segment>
    var queue: seq<Request>
    var closing: bool
    var failed: bool
    var index: nat
    var file: Option<seq<byte>>
    var size: nat
    var nextFrame: nat

    ghost const base: seq<Segment>
    ghost const start: nat
    ghost var accepted: seq<Request>
    ghost var mine: seq<Segment>
    ghost var made: seq<seq<Frame>>
    ghost var current: seq<Frame>
    ghost var dropped: nat

    ghost function View(): State
      reads this
    {
      State(files, queue, index, file, size, nextFrame, base, start, accepted, mine, made, current, dropped)
    }

    ghost predicate ValidIf(ok: bool, taken: nat)
      reads this
    {
      Sealed(sum, opts, View(), ok, taken) && opts.retain > 0
    }

    ghost predicate Valid()
      reads this
    {
      ValidIf(!failed, 0)
    }

    /** The recorder StartSegmented makes, on a directory with this latest index. */
    constructor (sum: Checksum, options: Options, directory: seq<Segment>, latest: nat)
      requires Normalized(options).maxBytes >= HEADER + MARKER && latest <= LAST_NAME
      requires Sorted(directory) && forall f | f in directory :: f.index <= latest
      ensures Valid() && !failed && !closing
      ensures this.sum == sum && opts == Normalized(options)
      ensures View() == State(directory, [], latest, None, 0, 0, directory, latest, [], [], [], [], 0)
    {
      this.sum, opts := sum, Normalized(options);
      files, base, start, index := directory, directory, latest, latest;
      queue, closing, failed, file, size, nextFrame := [], false, false, None, 0, 0;
      accepted, mine, made, current, dropped := [], [], [], [], 0;
      SealStart(sum, Normalized(options), directory, latest);
    }

    /** WriteFrame, the producers' side. */
    method WriteFrame(request: Request) returns (verdict: Verdict)
      requires Valid()
      modifies this`queue, this`accepted
      ensures Valid()
      ensures verdict == if |request.payload| > MAX_FRAME then TooLarge else if closing then Closed
                         else if failed then Failed else if |old(queue)| >= opts.depth then Backpressure else Accepted
      ensures View() == if verdict.Accepted? then old(View()).(queue := old(queue) + [request], accepted := old(accepted) + [request])
                        else old(View())
    {
      if |request.payload| > MAX_FRAME { return TooLarge; }
      if closing { return Closed; }
      if failed { return Failed; }
      if |queue| >= opts.depth { return Backpressure; }
      SealQueued(sum, opts, View(), request);
      queue, accepted := queue + [request], accepted + [request];
      return Accepted;
    }

    /** openSegment. */
    method OpenSegment(created: bool, ghost taken: nat) returns (ok: bool)
      requires ValidIf(true, taken) && file.None?
      modifies this`index, this`file, this`size
      ensures ValidIf(ok, taken) && ok == created
      ensures ok ==> file == Some([]) && size == 0
    {
      ghost var was := View();
      SealOpened(sum, opts, was, taken);
      index := index + 1;
      assert View() == was.(index := was.index + 1);
      if !created { return false; }
      file, size := Some([]), 0;
      return true;
    }

    /** finishSegment: the open segment is published whole, or removed. */
    method FinishSegment(env: FinishEnv, ghost taken: nat) returns (ok: bool)
      requires ValidIf(true, taken)
      modifies this`file, this`size, this`files, this`mine, this`made, this`current, this`dropped
      ensures ValidIf(ok, taken) && file.None?
      ensures ok ==> current == [] && made == (if old(file).Some? then old(made) + [old(current)] else old(made))
      ensures ok <==> old(file) == None || Finishes(env, |old(files)|, index, opts.retain)
    {
      if file.None? {
        SealedNone(sum, opts, View(), taken);
        return true;
      }
      ghost var was := View();
      var data := file.value;
      file, size := None, 0;
      if !env.flushed || !env.synced || !env.closed || !env.renamed {
        SealFailed(sum, opts, was, true, taken, None, 0);
        return false;
      }
      ok := Publish(env, data, was, taken);
    }

    /** The rename in finishSegment: the segment shows if its name is one the glob finds, and the oldest go. */
    method Publish(env: FinishEnv, data: seq<byte>, ghost was: State, ghost taken: nat) returns (ok: bool)
      requires Sealed(sum, opts, was, true, taken) && opts.retain > 0
      requires was.file == Some(data) && View() == was.(file := None, size := 0)
      modifies this`files, this`mine, this`made, this`current, this`dropped
      ensures ValidIf(ok, taken)
      ensures current == [] && made == old(made) + [old(current)]
      ensures ok <==> env.listed && (env.removed == None || |old(files)| + (if index <= 999_999 then 1 else 0) - opts.retain <= env.removed.value)
    {
      FoundUpTo(index);
      var shown := if Globbed(Name(index)) then files + [Segment(index, data)] else files;
      ghost var gone;
      var left;
      left, gone, ok := Retain(shown, opts.retain, env);
      SealPublished(sum, opts, was, left, gone, ok, taken);
      files := left;
      mine, made, current, dropped := mine + [Segment(index, data)], made + [current], [], dropped + gone;
      assert View() == Finished(was, left, gone);
    }

    /** writeRequest: the request becomes a record of the open segment, which must have room for it. */
    method WriteRequest(request: Request, env: Env) returns (ok: bool)
      requires ValidIf(true, 1) && nextFrame < |accepted| && accepted[nextFrame] == request
      modifies this`file, this`size, this`files, this`mine, this`made, this`current, this`dropped, this`index, this`nextFrame
      ensures ValidIf(ok, 0)
      ensures ok ==> nextFrame == old(nextFrame) + 1
      ensures ok ==> made == (if old(file).Some? && old(size) + RecordSize(request.payload) > opts.maxBytes
                              then old(made) + [old(current)] else old(made))
      ensures ok ==> var kept := old(file).Some? && old(size) + |request.payload| + 29 <= opts.maxBytes;
                     Appends(sum, if kept then old(file).value else [], if kept then old(current) else [],
                             request, old(nextFrame), file, current)
      ensures |request.payload| + 29 > opts.maxBytes ==> View() == old(View())
      ensures ok <==> Writes(opts, old(View()), request, env)
    {
      if RecordSize(request.payload) > opts.maxBytes {
        SealFailed(sum, opts, View(), true, 1, file, size);
        return false;
      }
      ok := MakeRoom(RecordSize(request.payload), env);
      if !ok { return; }
      ok := WriteRecord(request, env);
    }

    /** An open segment that has room for the record: a full one is finished first. */
    method MakeRoom(recordSize: nat, env: Env) returns (ok: bool)
      requires ValidIf(true, 1) && recordSize <= opts.maxBytes
      modifies this`file, this`size, this`files, this`mine, this`made, this`current, this`dropped, this`index
      ensures ValidIf(ok, 1)
      ensures ok ==> file.Some? && size + recordSize <= opts.maxBytes
      ensures ok ==> if old(file).Some? && old(size) + recordSize <= opts.maxBytes then file == old(file) && current == old(current)
                     else file == Some([]) && current == []
      ensures ok ==> made == (if old(file).Some? && old(size) + recordSize > opts.maxBytes
                              then old(made) + [old(current)] else old(made))
      ensures ok <==> var full := old(file) != None && old(size) + recordSize > opts.maxBytes;
                      && (full ==> Finishes(env.finish, |old(files)|, old(index), opts.retain))
                      && (full || old(file) == None ==> env.created)
    {
      ok := true;
      if file.None? {
        SealedNone(sum, opts, View(), 1);
      }
      if file.Some? && size + recordSize > opts.maxBytes {
        ok := FinishSegment(env.finish, 1);
      }
      if ok && file.None? {
        ok := OpenSegment(env.created, 1);
      }
    }

    method WriteRecord(request: Request, env: Env) returns (ok: bool)
      requires ValidIf(true, 1) && nextFrame < |accepted| && accepted[nextFrame] == request && file.Some?
      requires size + RecordSize(request.payload) <= opts.maxBytes
      modifies this`file, this`size, this`current, this`nextFrame
      ensures ValidIf(ok, 0)
      ensures ok ==> nextFrame == old(nextFrame) + 1 && size == old(size) + |request.payload| + 29
      ensures ok ==> Appends(sum, old(file).value, old(current), request, old(nextFrame), file, current)
      ensures ok <==> env.free != None && opts.minFree + |request.payload| + 29 <= env.free.value && env.torn == None && env.synced
    {
      ghost var was := View();
      SealWritten(sum, opts, was, request);
      SealFailed(sum, opts, was, true, 1, file, size);
      var recordSize := RecordSize(request.payload);
      if env.free.None? { return false; }
      if env.free.value < opts.minFree || recordSize > env.free.value - opts.minFree { return false; }
      ghost var frame := FrameOf(request, nextFrame);
      var record := Record(sum, FrameOf(request, nextFrame));
      var through := if env.torn.Some? && env.torn.value < |record| then record[..env.torn.value] else record;
      file := Some(file.value + through);
      if env.torn.Some? || !env.synced {
        SealFailed(sum, opts, was, true, 1, file, size);
        return false;
      }
      size, nextFrame, current := size + recordSize, nextFrame + 1, current + [frame];
      assert View() == Written(sum, was, request);
      return true;
    }

    /** One turn of run's loop: a request leaves the queue, to be written or, after a failure, dropped. */
    method TakeOne(env: Env)
      requires Valid() && queue != []
      modifies this`failed, this`queue, this`file, this`size, this`files, this`mine, this`made, this`current, this`dropped,
               this`index, this`nextFrame
      ensures Valid() && queue == old(queue)[1..]
      ensures old(failed) ==> failed
      ensures !failed ==> nextFrame == old(nextFrame) + 1
      ensures !failed <==> !old(failed) && Writes(opts, old(View()), old(queue[0]), env)
    {
      var request := Receive();
      if !failed {
        WriteOrFail(request, env);
      }
    }

    method WriteOrFail(request: Request, env: Env)
      requires ValidIf(true, 1) && !failed && nextFrame < |accepted| && accepted[nextFrame] == request
      modifies this`failed, this`file, this`size, this`files, this`mine, this`made, this`current, this`dropped,
               this`index, this`nextFrame
      ensures Valid()
      ensures !failed ==> nextFrame == old(nextFrame) + 1
      ensures !failed <==> Writes(opts, old(View()), request, env)
    {
      var ok := WriteRequest(request, env);
      failed := !ok;
    }

    method Receive() returns (request: Request)
      requires Valid() && queue != []
      modifies this`queue
      ensures ValidIf(!failed, 1) && request == old(queue)[0] && queue == old(queue)[1..]
      ensures !failed ==> nextFrame < |accepted| && accepted[nextFrame] == request
    {
      SealTaken(sum, opts, View(), !failed);
      request := queue[0];
      queue := queue[1..];
    }

    /** Close: nothing is accepted any more. */
    method Close()
      requires Valid()
      modifies this`closing
      ensures Valid() && closing && View() == old(View())
    {
      closing := true;
    }

    /** abortSegment. */
    method AbortSegment()
      requires Valid() && failed
      modifies this`file, this`size
      ensures Valid() && file.None?
    {
      if file.None? { return; }
      SealFailed(sum, opts, View(), false, 0, None, 0);
      file, size := None, 0;
    }

    /** The end of run, once the queue is closed and empty: the open segment is published or removed. */
    method Stop(env: FinishEnv)
      requires Valid() && closing && queue == []
      modifies this`failed, this`file, this`size, this`files, this`mine, this`made, this`current, this`dropped
      ensures Valid() && file.None?
      ensures !failed ==> Flatten(made) == FramesOf(accepted)
      ensures !failed <==> !old(failed) && (old(file) == None || Finishes(env, |old(files)|, index, opts.retain))
    {
      if failed {
        AbortSegment();
        return;
      }
      var ok := FinishLast(env);
      failed := !ok;
    }

    method FinishLast(env: FinishEnv) returns (ok: bool)
      requires ValidIf(true, 0) && queue == []
      modifies this`file, this`size, this`files, this`mine, this`made, this`current, this`dropped
      ensures ValidIf(ok, 0) && file.None?
      ensures ok ==> Flatten(made) == FramesOf(accepted)
      ensures ok <==> old(file) == None || Finishes(env, |old(files)|, index, opts.retain)
    {
      ok := FinishSegment(env, 0);
      if ok {
        SealedAll(sum, opts, View());
      }
    }
  }

  // ---------------------------------------------------------------- replay is a suffix

  function Groups(sum: Checksum, files: seq<Segment>): (groups: seq<seq<Frame>>)
    ensures |groups| == |files|
  {
    if files == [] then [] else [Replay(sum, files[0].data).frames] + Groups(sum, files[1..])
  }

  lemma {:induction false} CleanGroups(sum: Checksum, files: seq<Segment>)
    requires ReplayAll(sum, files).clean
    ensures Holds(sum, files, Groups(sum, files)) && ReplayAll(sum, files).frames == Flatten(Groups(sum, files))
    decreases |files|
  {
    if files != [] {
      CleanGroups(sum, files[1..]);
      var groups := Groups(sum, files);
      assert groups[1..] == Groups(sum, files[1..]);
      FlattenFront(groups);
      forall i | 0 <= i < |files| ensures Replay(sum, files[i].data) == Replayed(groups[i], true) {
        assert i > 0 ==> files[i] == files[1..][i - 1] && groups[i] == groups[1..][i - 1];
      }
    }
  }

  /** The groups of frames stored, found and unfound by name, whether or not they were removed since. */
  function Stored(sum: Checksum, s: State): seq<seq<Frame>>
    requires |s.made| == |s.mine|
  {
    Groups(sum, s.base) + s.made[..|Found(s.mine, s.start)|]
  }

  /** The files hold what was stored, less the groups of the oldest. */
  lemma FilesHold(sum: Checksum, o: Options, s: State)
    requires Sound(sum, o, s) && ReplayAll(sum, s.base).clean
    ensures s.dropped <= |Stored(sum, s)| && Holds(sum, s.files, Stored(sum, s)[s.dropped..])
  {
    CleanGroups(sum, s.base);
    PublishedHolds(sum, s, o.maxBytes);
    var found := Found(s.mine, s.start);
    assert Holds(sum, found, s.made[..|found|]);
    assert Holds(sum, All(s), Stored(sum, s));
  }

  /**
   At any time, replay gives the frames stored before and during the session, in order, from
   some segment boundary on; from the first on, if no more segments were made than are kept.
   */
  lemma ReplayIsSuffix(sum: Checksum, o: Options, s: State)
    requires Sound(sum, o, s) && ReplayAll(sum, s.base).clean
    ensures var stored := Stored(sum, s);
            && s.dropped <= |stored|
            && ReplayAll(sum, s.files) == Replayed(Flatten(stored[s.dropped..]), true)
            && Flatten(stored) == Flatten(stored[..s.dropped]) + Flatten(stored[s.dropped..])
            && (|All(s)| <= o.retain ==> s.dropped == 0)
  {
    FilesHold(sum, o, s);
    ReplayHeld(sum, s.files, Stored(sum, s)[s.dropped..]);
    FlattenCut(Stored(sum, s), s.dropped);
    ListedAll(s, o.retain);
  }

  lemma FlattenCut(groups: seq<seq<Frame>>, n: nat)
    requires n <= |groups|
    ensures Flatten(groups) == Flatten(groups[..n]) + Flatten(groups[n..])
  {
    FlattenConcat(groups[..n], groups[n..]);
    assert groups[..n] + groups[n..] == groups;
  }

  lemma ListedAll(s: State, retain: nat)
    requires Listed(s, retain)
    ensures |All(s)| <= retain ==> s.dropped == 0
  {
  }

  /** The files are in name order, and those of the session within the size limit. */
  lemma FilesInOrder(sum: Checksum, o: Options, s: State)
    requires Sound(sum, o, s)
    ensures Sorted(s.files) && forall f | f in s.files && f !in s.base :: |f.data| <= o.maxBytes
  {
    AllInOrder(sum, o, s);
    assert forall i | 0 <= i < |s.files| :: s.files[i] == All(s)[s.dropped + i];
    forall f | f in s.files && f !in s.base ensures |f.data| <= o.maxBytes {
      MineFits(sum, o, s, f);
    }
  }

  lemma AllInOrder(sum: Checksum, o: Options, s: State)
    requires Sound(sum, o, s)
    ensures Sorted(All(s))
  {
    forall i, j | 0 <= i < j < |All(s)| ensures All(s)[i].index < All(s)[j].index {
      IndexOf(sum, s, o.maxBytes, i);
      IndexOf(sum, s, o.maxBytes, j);
      assert i < |s.base| ==> All(s)[i] in s.base;
    }
  }

  lemma IndexOf(sum: Checksum, s: State, maxBytes: nat, i: nat)
    requires Published(sum, s, maxBytes) && i < |All(s)|
    ensures All(s)[i] == if i < |s.base| then s.base[i] else s.mine[i - |s.base|]
    ensures i >= |s.base| ==> i - |s.base| < |s.mine| && All(s)[i].index == s.start + 1 + (i - |s.base|)
  {
    if i >= |s.base| {
      assert IsSegment(sum, s.mine[i - |s.base|], s.made[i - |s.base|], s.start + 1 + (i - |s.base|), maxBytes);
    }
  }

  lemma MineFits(sum: Checksum, o: Options, s: State, f: Segment)
    requires Sound(sum, o, s) && f in All(s) && f !in s.base
    ensures |f.data| <= o.maxBytes
  {
    var i :| 0 <= i < |s.mine| && s.mine[i] == f;
    assert IsSegment(sum, f, s.made[i], s.start + 1 + i, o.maxBytes);
  }

  /**
   Once the recorder has stopped without a failure, that is what was stored before followed by
   every frame accepted, exactly as long as the segment indices fit six digits.
   */
  lemma NothingMissing(sum: Checksum, o: Options, s: State)
    requires Invariant(sum, o, s, true, 0) && s.file.None? && s.queue == [] && ReplayAll(sum, s.base).clean
    ensures s.start + |s.mine| <= LAST_NAME ==>
              Flatten(Stored(sum, s)) == ReplayAll(sum, s.base).frames + FramesOf(s.accepted)
    ensures s.start + |s.mine| <= LAST_NAME <==> Found(s.mine, s.start) == s.mine
    ensures s.mine != [] ==> |s.files| == if |All(s)| <= o.retain then |All(s)| else o.retain
  {
    KeptCount(s, o.retain);
    AllPublished(sum, o, s);
    FoundExact(s.mine, s.start);
    if s.start + |s.mine| <= LAST_NAME {
      StoredAll(sum, s);
    }
  }

  lemma FoundExact(mine: seq<Segment>, start: nat)
    requires start <= LAST_NAME
    ensures Found(mine, start) == mine <==> start + |mine| <= LAST_NAME
  {
    if start + |mine| > LAST_NAME {
      assert |Found(mine, start)| == LAST_NAME - start;
    }
  }

  lemma StoredAll(sum: Checksum, s: State)
    requires |s.made| == |s.mine| && s.start + |s.mine| <= LAST_NAME && ReplayAll(sum, s.base).clean
    ensures Flatten(Stored(sum, s)) == ReplayAll(sum, s.base).frames + Flatten(s.made)
  {
    CleanGroups(sum, s.base);
    assert s.made[..|s.mine|] == s.made;
    FlattenConcat(Groups(sum, s.base), s.made);
  }

  lemma KeptCount(s: State, retain: nat)
    requires Retained(s, retain)
    ensures s.mine != [] ==> |s.files| == if |All(s)| <= retain then |All(s)| else retain
  {
  }

  /**
   Frame by frame: once the recorder has stopped without a failure, with indices in six digits,
   the i-th frame behind the older ones has the payload, the time and the direction of the i-th
   request accepted, and the number i. If nothing had to be removed, that is what replay gives.
   */
  lemma RecordedExactly(sum: Checksum, o: Options, s: State)
    requires Invariant(sum, o, s, true, 0) && s.file.None? && s.queue == [] && ReplayAll(sum, s.base).clean
    requires s.start + |s.mine| <= LAST_NAME
    ensures Behind(Flatten(Stored(sum, s)), ReplayAll(sum, s.base).frames, s.accepted)
    ensures |All(s)| <= o.retain ==> ReplayAll(sum, s.files) == Replayed(Flatten(Stored(sum, s)), true)
  {
    NothingMissing(sum, o, s);
    BehindOlder(ReplayAll(sum, s.base).frames, s.accepted);
    if |All(s)| <= o.retain {
      AllReplayed(sum, o, s);
    }
  }

  /** The frames are the older ones, and behind them, in order, exactly what the requests say. */
  ghost predicate Behind(frames: seq<Frame>, older: seq<Frame>, requests: seq<Request>) {
    && |frames| == |older| + |requests| && frames[..|older|] == older
    && forall i: nat | i < |requests| :: Recorded(frames[|older| + i], requests[i], i)
  }

  lemma BehindOlder(older: seq<Frame>, accepted: seq<Request>)
    ensures Behind(older + FramesOf(accepted), older, accepted)
  {
    var mine := FramesOf(accepted);
    forall i: nat | i < |accepted| ensures Recorded((older + mine)[|older| + i], accepted[i], i) {
      FramesRecorded(accepted, i);
      assert (older + mine)[|older| + i] == mine[i];
    }
  }

  lemma AllReplayed(sum: Checksum, o: Options, s: State)
    requires Sound(sum, o, s) && ReplayAll(sum, s.base).clean && |All(s)| <= o.retain
    ensures ReplayAll(sum, s.files) == Replayed(Flatten(Stored(sum, s)), true)
  {
    ReplayIsSuffix(sum, o, s);
    assert Stored(sum, s)[0..] == Stored(sum, s);
  }

  /** At any time, and after any failure, so are the session's published frames the first requests accepted. */
  lemma PublishedRecorded(sum: Checksum, o: Options, s: State)
    requires Sound(sum, o, s)
    ensures |Flatten(s.made)| <= |s.accepted|
    ensures forall i: nat | i < |Flatten(s.made)| :: Recorded(Flatten(s.made)[i], s.accepted[i], i)
  {
    var n := |Flatten(s.made)|;
    forall i: nat | i < n ensures Recorded(Flatten(s.made)[i], s.accepted[i], i) {
      FramesRecorded(s.accepted[..n], i);
    }
  }

  // ---------------------------------------------------------------- a published segment is cut

  /** Replay of a directory one of whose files now replays to r. */
  lemma {:induction false} ReplayChanged(sum: Checksum, files: seq<Segment>, groups: seq<seq<Frame>>, k: nat, file: Segment, r: Replayed)
    requires Holds(sum, files, groups) && k < |files| && Replay(sum, file.data) == r
    ensures ReplayAll(sum, files[k := file])
            == if r.clean then Replayed(Flatten(groups[..k]) + (r.frames + Flatten(groups[k + 1..])), true)
               else Replayed(Flatten(groups[..k]) + r.frames, false)
    decreases k
  {
    var changed := files[k := file];
    if k == 0 {
      assert changed[1..] == files[1..] && groups[..0] == [];
      ReplayHeld(sum, files[1..], groups[1..]);
      assert [] + r.frames == r.frames && [] + (r.frames + Flatten(groups[1..])) == r.frames + Flatten(groups[1..]);
    } else {
      assert changed[1..] == files[1..][k - 1 := file];
      ReplayChanged(sum, files[1..], groups[1..], k - 1, file, r);
      assert groups[..k][1..] == groups[1..][..k - 1] && groups[1..][k..] == groups[k + 1..];
      FlattenFront(groups[..k]);
      Associative(groups[0], Flatten(groups[1..][..k - 1]), r.frames);
      Associative(groups[0], Flatten(groups[1..][..k - 1]), r.frames + Flatten(groups[k + 1..]));
    }
  }

  /**
   A published segment is cut at byte n. Replay gives everything before it and its whole
   records before the cut. If the cut is inside a record, replay stops there and reports it;
   if it is between records, replay goes on with the next segment and notices nothing.
   */
  lemma CutDirectory(sum: Checksum, o: Options, s: State, k: nat, n: nat)
    requires Sound(sum, o, s) && ReplayAll(sum, s.base).clean
    requires k < |s.files| && s.dropped + k >= |s.base| && n <= |s.files[k].data|
    ensures s.dropped + k < |Stored(sum, s)|
    ensures var groups := Stored(sum, s)[s.dropped..];
            var whole := groups[k][..WholeWithin(groups[k], n)];
            ReplayAll(sum, s.files[k := Segment(s.files[k].index, s.files[k].data[..n])])
            == if SizeOf(whole) == n then Replayed(Flatten(groups[..k]) + (whole + Flatten(groups[k + 1..])), true)
               else Replayed(Flatten(groups[..k]) + whole, false)
  {
    FilesHold(sum, o, s);
    CutSegment(sum, o, s, k);
    var groups := Stored(sum, s)[s.dropped..];
    CutIsDetected(sum, groups[k], n);
    var whole := groups[k][..WholeWithin(groups[k], n)];
    ReplayChanged(sum, s.files, groups, k, Segment(s.files[k].index, s.files[k].data[..n]), Replayed(whole, SizeOf(whole) == n));
  }

  /** The k-th file left, if it is of the session, is the encoding of its group. */
  lemma CutSegment(sum: Checksum, o: Options, s: State, k: nat)
    requires Sound(sum, o, s) && k < |s.files| && s.dropped + k >= |s.base|
    ensures s.dropped + k < |Stored(sum, s)|
    ensures var frames := Stored(sum, s)[s.dropped + k]; s.files[k].data == Encoded(sum, frames) && AllStorable(frames)
  {
    var g := s.dropped + k - |s.base|;
    assert s.files[k] == All(s)[s.dropped + k] == s.mine[g];
    assert Stored(sum, s)[s.dropped + k] == s.made[g];
    assert IsSegment(sum, s.mine[g], s.made[g], s.start + 1 + g, o.maxBytes);
  }
}
