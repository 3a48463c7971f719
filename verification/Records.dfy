/**
 The record format of internal/capture/segmented.go and its replay: a header of length,
 checksum, index, timestamp and direction, the payload, and a commit marker. The checksum is
 a parameter, since nothing here depends on which one it is.
 */
module Records {
  import opened Prelude

  const HEADER := 25
  const MARKER := 4
  const MAX_FRAME := 0x400_0000

  // ---------------------------------------------------------------- big-endian numbers

  /** 256 to the k. */
  function Bound(k: nat): nat { if k == 0 then 1 else 256 * Bound(k - 1) }

  function Be(n: nat, k: nat): (s: seq<byte>)
    ensures |s| == k
  {
    if k == 0 then [] else Be(n / 256, k - 1) + [n % 256]
  }

  function FromBe(s: seq<byte>): nat { if s == [] then 0 else 256 * FromBe(s[..|s| - 1]) + s[|s| - 1] }

  lemma {:induction false} BeRound(n: nat, k: nat)
    requires n < Bound(k)
    ensures FromBe(Be(n, k)) == n
  {
    if k > 0 {
      BeRound(n / 256, k - 1);
      assert Be(n, k)[..k - 1] == Be(n / 256, k - 1);
    }
  }

  /** Every string of bytes is the big-endian form of its number. */
  lemma {:induction false} BytesRound(s: seq<byte>)
    ensures Be(FromBe(s), |s|) == s
  {
    if s != [] {
      BytesRound(s[..|s| - 1]);
      assert s == s[..|s| - 1] + [s[|s| - 1]];
      Digit(FromBe(s[..|s| - 1]), s[|s| - 1]);
    }
  }

  lemma Digit(q: nat, r: byte)
    ensures (256 * q + r) / 256 == q && (256 * q + r) % 256 == r
  {
  }

  lemma {:induction false} FromBeBound(s: seq<byte>)
    ensures FromBe(s) < Bound(|s|)
  {
    if s != [] {
      FromBeBound(s[..|s| - 1]);
    }
  }

  lemma BeStep(n: nat, k: nat, m: nat, r: byte)
    requires k > 0 && m == n / 256 && r == n % 256
    ensures Be(n, k) == Be(m, k - 1) + [r]
  {
  }

  /** The bytes spelled out, most significant first; eight bytes are twice four. */
  lemma BigEndian(n: nat)
    ensures Be(n, 4) == [n / 0x100_0000 % 256, n / 0x1_0000 % 256, n / 0x100 % 256, n % 256]
    ensures Be(n, 8) == Be(n / TWO_32, 4) + Be(n, 4)
  {
    var a, b, c, e := n / 0x100, n / 0x1_0000, n / 0x100_0000, n / TWO_32;
    Chain(n, 4, a, b, c, e);
    Chain(n, 8, a, b, c, e);
    assert Be(e, 0) == [];
  }

  lemma Chain(n: nat, k: nat, a: nat, b: nat, c: nat, e: nat)
    requires k >= 4 && a == n / 0x100 && b == n / 0x1_0000 && c == n / 0x100_0000 && e == n / TWO_32
    ensures Be(n, k) == Be(e, k - 4) + [c % 256, b % 256, a % 256, n % 256]
  {
    BeStep(n, k, a, n % 256);
    BeStep(a, k - 1, b, a % 256);
    BeStep(b, k - 2, c, b % 256);
    BeStep(c, k - 3, e, c % 256);
    FourMore(Be(e, k - 4), c % 256, b % 256, a % 256, n % 256);
  }

  lemma FourMore(s: seq<byte>, c: byte, b: byte, a: byte, r: byte)
    ensures s + [c] + [b] + [a] + [r] == s + [c, b, a, r]
  {
  }

  lemma Bounds()
    ensures Bound(4) == TWO_32 && Bound(8) == TWO_64
  {
    assert Bound(1) == 256 && Bound(2) == 65536 && Bound(3) == 16777216;
    assert Bound(5) == 256 * TWO_32 && Bound(6) == 65536 * TWO_32 && Bound(7) == 16777216 * TWO_32;
  }

  // ---------------------------------------------------------------- records

  /** A recorded frame; stamp is the 64-bit pattern of its time, direction the stored code. */
  datatype Frame = Frame(payload: seq<byte>, index: nat, stamp: nat, direction: byte)

  type Checksum = seq<byte> -> nat

  function Crc(sum: Checksum, payload: seq<byte>): nat { sum(payload) % TWO_32 }

  const COMMIT: seq<byte> := [0x43, 0x4d, 0x49, 0x54]

  /** What a record can hold. */
  predicate Storable(f: Frame) {
    |f.payload| <= MAX_FRAME && f.index < TWO_64 && f.stamp < TWO_64 && f.direction <= 2
  }

  function Header(sum: Checksum, f: Frame): (h: seq<byte>)
    ensures |h| == HEADER
  {
    Be(|f.payload|, 4) + (Be(Crc(sum, f.payload), 4) + (Be(f.index, 8) + (Be(f.stamp, 8) + [f.direction])))
  }

  function RecordSize(payload: seq<byte>): nat { HEADER + |payload| + MARKER }

  function Record(sum: Checksum, f: Frame): (r: seq<byte>)
    ensures |r| == RecordSize(f.payload)
  {
    Header(sum, f) + (f.payload + COMMIT)
  }

  function SizeOf(frames: seq<Frame>): nat {
    if frames == [] then 0 else RecordSize(frames[0].payload) + SizeOf(frames[1..])
  }

  function Encoded(sum: Checksum, frames: seq<Frame>): (d: seq<byte>)
    ensures |d| == SizeOf(frames)
  {
    if frames == [] then [] else Record(sum, frames[0]) + Encoded(sum, frames[1..])
  }

  // ---------------------------------------------------------------- replay

  /** What the next read of a segment finds. */
  datatype Next = End | Corrupt | Whole(frame: Frame, size: nat)

  function ReadRecord(sum: Checksum, d: seq<byte>): (n: Next)
    ensures n.Whole? ==> 0 < n.size <= |d|
  {
    if d == [] then End
    else if |d| < HEADER then Corrupt
    else
      var length := FromBe(d[..4]);
      if length > MAX_FRAME || |d| < HEADER + length + MARKER then Corrupt
      else
        var payload := d[HEADER..HEADER + length];
        var direction := d[24];
        if Crc(sum, payload) != FromBe(d[4..8]) || d[HEADER + length..HEADER + length + MARKER] != COMMIT || direction > 2
        then Corrupt
        else Whole(Frame(payload, FromBe(d[8..16]), FromBe(d[16..24]), direction), HEADER + length + MARKER)
  }

  /** The frames submitted, and whether the segment ended cleanly or was reported corrupt. */
  datatype Replayed = Replayed(frames: seq<Frame>, clean: bool)

  function Replay(sum: Checksum, d: seq<byte>): Replayed
    decreases |d|
  {
    match ReadRecord(sum, d)
    case End => Replayed([], true)
    case Corrupt => Replayed([], false)
    case Whole(f, size) =>
      var rest := Replay(sum, d[size..]);
      Replayed([f] + rest.frames, rest.clean)
  }

  function Before(frames: seq<Frame>, r: Replayed): Replayed { Replayed(frames + r.frames, r.clean) }

  lemma BeforeTwice(a: seq<Frame>, b: seq<Frame>, r: Replayed)
    ensures Before(a, Before(b, r)) == Before(a + b, r)
  {
  }

  lemma ReplayAt(sum: Checksum, d: seq<byte>, i: nat)
    requires i < |d|
    ensures var next := ReadRecord(sum, d[i..]);
            Replay(sum, d[i..]) == if next.Corrupt? then Replayed([], false) else Before([next.frame], Replay(sum, d[i + next.size..]))
  {
    var next := ReadRecord(sum, d[i..]);
    assert next.Whole? ==> d[i..][next.size..] == d[i + next.size..];
  }

  /** How a replay ends: at the end of the file, at a corrupt record, or with a frame the callback refuses. */
  datatype Ending = Clean | CorruptRecord | Refused

  /** What is submitted, and how it ends, if the callback refuses the frame of this number. */
  function Submission(r: Replayed, refused: Option<nat>): (seq<Frame>, Ending) {
    if refused.Some? && refused.value < |r.frames| then (r.frames[..refused.value], Refused)
    else (r.frames, if r.clean then Clean else CorruptRecord)
  }

  /** All frames before the refused one are submitted; it is refused exactly if there is one of that number. */
  lemma SubmissionExact(r: Replayed, refused: Option<nat>, frames: seq<Frame>, ending: Ending)
    ensures Submission(r, refused) == (frames, ending)
            <==> && |frames| <= |r.frames| && frames == r.frames[..|frames|]
                 && match ending
                    case Refused => refused == Some(|frames|) && |frames| < |r.frames|
                    case Clean => r.clean && |frames| == |r.frames| && (refused.Some? ==> |frames| <= refused.value)
                    case CorruptRecord => !r.clean && |frames| == |r.frames| && (refused.Some? ==> |frames| <= refused.value)
  {
    assert r.frames[..|r.frames|] == r.frames;
  }

  /** replaySegmentRecords: the frames handed to submit and taken by it, in order. */
  method ReplaySegmentRecords(sum: Checksum, d: seq<byte>, refused: Option<nat>) returns (submitted: seq<Frame>, ending: Ending)
    ensures (submitted, ending) == Submission(Replay(sum, d), refused)
  {
    submitted := [];
    var i := 0;
    ghost var whole := Replay(sum, d);
    ghost var rest := whole;
    RestStart(sum, d);
    SoFar([], whole, refused);
    while i < |d|
      invariant i <= |d| && Rest(sum, d, i, rest)
      invariant whole == Before(submitted, rest) && (refused.Some? ==> |submitted| <= refused.value)
      decreases |d| - i
    {
      var next := ReadRecord(sum, d[i..]);
      ghost var rest' := RestTurn(sum, d, i, rest, next);
      SoFar(submitted, rest, refused);
      if next.Corrupt? { return submitted, CorruptRecord; }
      if refused == Some(|submitted|) { return submitted, Refused; }
      BeforeTwice(submitted, [next.frame], rest');
      submitted, i, rest := submitted + [next.frame], i + next.size, rest';
    }
    RestEnd(sum, d, rest);
    SoFar(submitted, rest, refused);
    return submitted, Clean;
  }

  /** From i on the segment replays to this; sealed, so that loops hand it on without looking. */
  ghost predicate Rest(sum: Checksum, d: seq<byte>, i: nat, rest: Replayed) {
    i <= |d| && forall question: nat {:trigger Asked(question)} | Asked(question) :: rest == Replay(sum, d[i..])
  }

  lemma RestStart(sum: Checksum, d: seq<byte>)
    ensures Rest(sum, d, 0, Replay(sum, d))
  {
    assert d[0..] == d;
  }

  lemma RestTurn(sum: Checksum, d: seq<byte>, i: nat, rest: Replayed, next: Next) returns (rest': Replayed)
    requires i < |d| && Rest(sum, d, i, rest) && next == ReadRecord(sum, d[i..])
    ensures !next.End? && (next.Corrupt? ==> rest == Replayed([], false))
    ensures next.Whole? ==> next.size <= |d| - i && rest == Before([next.frame], rest') && Rest(sum, d, i + next.size, rest')
  {
    assert Asked(0);
    ReplayAt(sum, d, i);
    rest' := if next.Whole? then Replay(sum, d[i + next.size..]) else rest;
  }

  lemma RestEnd(sum: Checksum, d: seq<byte>, rest: Replayed)
    requires Rest(sum, d, |d|, rest)
    ensures rest == Replayed([], true)
  {
    assert Asked(0);
    assert d[|d|..] == [];
  }

  /** With so much submitted and the rest known, how replay ends now. */
  lemma SoFar(submitted: seq<Frame>, rest: Replayed, refused: Option<nat>)
    requires refused.Some? ==> |submitted| <= refused.value
    ensures submitted == [] ==> Before(submitted, rest) == rest
    ensures rest.frames == [] ==> Submission(Before(submitted, rest), refused) == (submitted, if rest.clean then Clean else CorruptRecord)
    ensures rest.frames != [] && refused == Some(|submitted|) ==> Submission(Before(submitted, rest), refused) == (submitted, Refused)
  {
    assert rest.frames == [] ==> submitted + rest.frames == submitted;
    assert (submitted + rest.frames)[..|submitted|] == submitted;
  }

  // ---------------------------------------------------------------- what is written is read

  lemma HeaderParts(sum: Checksum, f: Frame)
    ensures var h := Header(sum, f);
            && h[..4] == Be(|f.payload|, 4) && h[4..8] == Be(Crc(sum, f.payload), 4)
            && h[8..16] == Be(f.index, 8) && h[16..24] == Be(f.stamp, 8) && h[24] == f.direction
  {
  }

  lemma HeaderOf(d: seq<byte>, h: seq<byte>)
    requires |h| == HEADER <= |d| && d[..HEADER] == h
    ensures d[..4] == h[..4] && d[4..8] == h[4..8] && d[8..16] == h[8..16] && d[16..24] == h[16..24] && d[24] == h[24]
  {
    assert forall a, b | 0 <= a <= b <= HEADER :: d[a..b] == d[..HEADER][a..b];
  }

  lemma Slices(h: seq<byte>, p: seq<byte>, c: seq<byte>, tail: seq<byte>)
    ensures var d := h + (p + c) + tail;
            d[..|h|] == h && d[|h|..|h| + |p|] == p && d[|h| + |p|..|h| + |p| + |c|] == c
  {
  }

  lemma RecordRead(sum: Checksum, f: Frame, tail: seq<byte>)
    requires Storable(f)
    ensures ReadRecord(sum, Record(sum, f) + tail) == Whole(f, RecordSize(f.payload))
  {
    var d := Record(sum, f) + tail;
    Slices(Header(sum, f), f.payload, COMMIT, tail);
    HeaderRead(sum, f, d);
  }

  lemma HeaderRead(sum: Checksum, f: Frame, d: seq<byte>)
    requires Storable(f) && |d| >= HEADER && d[..HEADER] == Header(sum, f)
    ensures FromBe(d[..4]) == |f.payload| && FromBe(d[4..8]) == Crc(sum, f.payload)
    ensures FromBe(d[8..16]) == f.index && FromBe(d[16..24]) == f.stamp && d[24] == f.direction
  {
    HeaderParts(sum, f);
    HeaderOf(d, Header(sum, f));
    Bounds();
    BeRound(|f.payload|, 4);
    BeRound(Crc(sum, f.payload), 4);
    BeRound(f.index, 8);
    BeRound(f.stamp, 8);
  }

  /** A record cut anywhere inside is reported. */
  lemma RecordTorn(sum: Checksum, f: Frame, n: nat)
    requires Storable(f) && 0 < n < RecordSize(f.payload)
    ensures ReadRecord(sum, Record(sum, f)[..n]) == Corrupt
  {
    var d := Record(sum, f);
    if n >= HEADER {
      HeaderParts(sum, f);
      Bounds();
      BeRound(|f.payload|, 4);
      assert d[..n][..4] == Header(sum, f)[..4];
    }
  }

  /** A whole record in front is submitted first. */
  lemma ReplayTurn(sum: Checksum, f: Frame, more: seq<byte>)
    requires Storable(f)
    ensures Replay(sum, Record(sum, f) + more) == Replayed([f] + Replay(sum, more).frames, Replay(sum, more).clean)
  {
    RecordRead(sum, f, more);
    assert (Record(sum, f) + more)[RecordSize(f.payload)..] == more;
  }

  /** A piece of a record submits nothing. */
  lemma ReplayTorn(sum: Checksum, f: Frame, n: nat)
    requires Storable(f) && n < RecordSize(f.payload)
    ensures Replay(sum, Record(sum, f)[..n]) == Replayed([], n == 0)
  {
    RecordRead(sum, f, []);
    if n > 0 {
      RecordTorn(sum, f, n);
    }
  }

  predicate AllStorable(frames: seq<Frame>) { forall f | f in frames :: Storable(f) }

  lemma Regroup(a: seq<byte>, b: seq<byte>, c: seq<byte>)
    ensures a + b + c == a + (b + c)
  {
  }

  lemma CutFront(a: seq<byte>, b: seq<byte>, n: nat)
    requires n <= |a| + |b|
    ensures (a + b)[..n] == if n < |a| then a[..n] else a + b[..n - |a|]
  {
  }

  /** Reading the records of some frames gives these frames, then whatever follows. */
  lemma {:induction false} ReplayRecords(sum: Checksum, frames: seq<Frame>, tail: seq<byte>)
    requires AllStorable(frames)
    ensures var rest := Replay(sum, tail);
            Replay(sum, Encoded(sum, frames) + tail) == Replayed(frames + rest.frames, rest.clean)
    decreases |frames|
  {
    if frames == [] {
      assert Encoded(sum, frames) + tail == tail;
    } else {
      var f, more := frames[0], Encoded(sum, frames[1..]) + tail;
      Regroup(Record(sum, f), Encoded(sum, frames[1..]), tail);
      assert Encoded(sum, frames) + tail == Record(sum, f) + more;
      ReplayTurn(sum, f, more);
      ReplayRecords(sum, frames[1..], tail);
      FramesFront(frames, Replay(sum, tail).frames);
    }
  }

  lemma FramesFront(frames: seq<Frame>, rest: seq<Frame>)
    requires frames != []
    ensures [frames[0]] + (frames[1..] + rest) == frames + rest
  {
  }

  /** How many records lie whole within the first n bytes. */
  function WholeWithin(frames: seq<Frame>, n: nat): (k: nat)
    ensures k <= |frames|
  {
    if frames == [] || n < RecordSize(frames[0].payload) then 0
    else 1 + WholeWithin(frames[1..], n - RecordSize(frames[0].payload))
  }

  /** WholeWithin counts all records that fit, and no more. */
  lemma {:induction false} WholeWithinExact(frames: seq<Frame>, n: nat)
    ensures var k := WholeWithin(frames, n);
            SizeOf(frames[..k]) <= n && (k < |frames| ==> n < SizeOf(frames[..k + 1]))
    decreases |frames|
  {
    if frames != [] {
      var k := WholeWithin(frames, n);
      if k == 0 {
        assert frames[..1][1..] == [];
      } else {
        WholeWithinExact(frames[1..], n - RecordSize(frames[0].payload));
        assert frames[..k][1..] == frames[1..][..k - 1];
        if k < |frames| {
          assert frames[..k + 1][1..] == frames[1..][..k];
        }
      }
    }
  }

  /**
   A segment cut at any byte replays exactly its whole records before the cut. It ends
   cleanly if the cut lies between records, and is reported corrupt otherwise.
   */
  lemma {:induction false} CutIsDetected(sum: Checksum, frames: seq<Frame>, n: nat)
    requires AllStorable(frames) && n <= SizeOf(frames)
    ensures var whole := frames[..WholeWithin(frames, n)];
            Replay(sum, Encoded(sum, frames)[..n]) == Replayed(whole, SizeOf(whole) == n)
    decreases |frames|
  {
    if frames != [] {
      var size := RecordSize(frames[0].payload);
      if n < size {
        CutFirst(sum, frames, n);
      } else {
        CutIsDetected(sum, frames[1..], n - size);
        CutTurn(sum, frames, n, Replay(sum, Encoded(sum, frames[1..])[..n - size]));
        FirstFrames(frames, WholeWithin(frames, n));
      }
    }
  }

  /** A cut inside the first record leaves nothing to submit. */
  lemma CutFirst(sum: Checksum, frames: seq<Frame>, n: nat)
    requires frames != [] && Storable(frames[0]) && n < RecordSize(frames[0].payload)
    ensures frames[..0] == [] && Replay(sum, Encoded(sum, frames)[..n]) == Replayed([], n == 0)
  {
    CutFront(Record(sum, frames[0]), Encoded(sum, frames[1..]), n);
    ReplayTorn(sum, frames[0], n);
  }

  lemma CutTurn(sum: Checksum, frames: seq<Frame>, n: nat, whole: Replayed)
    requires frames != [] && Storable(frames[0]) && RecordSize(frames[0].payload) <= n <= SizeOf(frames)
    requires Replay(sum, Encoded(sum, frames[1..])[..n - RecordSize(frames[0].payload)]) == whole
    ensures Replay(sum, Encoded(sum, frames)[..n]) == Before([frames[0]], whole)
  {
    var f, rest := frames[0], Encoded(sum, frames[1..]);
    ReplayTurn(sum, f, rest[..n - RecordSize(f.payload)]);
    CutFront(Record(sum, f), rest, n);
  }

  lemma FirstFrames(frames: seq<Frame>, k: nat)
    requires 0 < k <= |frames|
    ensures frames[..k] == [frames[0]] + frames[1..][..k - 1]
    ensures SizeOf(frames[..k]) == RecordSize(frames[0].payload) + SizeOf(frames[1..][..k - 1])
  {
    assert frames[..k][1..] == frames[1..][..k - 1];
  }

  /** Other payload bytes under the same header go unnoticed exactly if the checksum agrees. */
  lemma ChangeIsDetected(sum: Checksum, f: Frame, payload: seq<byte>, tail: seq<byte>)
    requires Storable(f) && |payload| == |f.payload|
    ensures ReadRecord(sum, Header(sum, f) + (payload + COMMIT) + tail)
            == if Crc(sum, payload) == Crc(sum, f.payload) then Whole(f.(payload := payload), RecordSize(payload)) else Corrupt
  {
    var other := f.(payload := payload);
    if Crc(sum, payload) == Crc(sum, f.payload) {
      assert Header(sum, f) == Header(sum, other);
      RecordRead(sum, other, tail);
    } else {
      var d := Header(sum, f) + (payload + COMMIT) + tail;
      HeaderParts(sum, f);
      Bounds();
      BeRound(|payload|, 4);
      BeRound(Crc(sum, f.payload), 4);
      Slices(Header(sum, f), payload, COMMIT, tail);
      HeaderOf(d, Header(sum, f));
    }
  }

  // ---------------------------------------------------------------- exactly what is read

  /** The bytes of a record, spelled out. */
  lemma RecordLayout(sum: Checksum, f: Frame)
    ensures var r, n, crc := Record(sum, f), |f.payload|, sum(f.payload) % TWO_32;
            && |r| == n + 29
            && r[..4] == [n / 0x100_0000 % 256, n / 0x1_0000 % 256, n / 0x100 % 256, n % 256]
            && r[4..8] == [crc / 0x100_0000 % 256, crc / 0x1_0000 % 256, crc / 0x100 % 256, crc % 256]
            && r[8..16] == Be(f.index, 8) && r[16..24] == Be(f.stamp, 8) && r[24] == f.direction
            && r[25..25 + n] == f.payload
            && r[25 + n..] == [0x43, 0x4d, 0x49, 0x54]
  {
    var h := Header(sum, f);
    HeaderParts(sum, f);
    BigEndian(|f.payload|);
    BigEndian(Crc(sum, f.payload));
    Slices(h, f.payload, COMMIT, []);
    assert Record(sum, f) + [] == Record(sum, f);
    HeaderOf(Record(sum, f), h);
    Behind(h, f.payload, COMMIT);
  }

  lemma Behind(h: seq<byte>, p: seq<byte>, c: seq<byte>)
    ensures (h + (p + c))[|h| + |p|..] == c
  {
  }

  /** What is read as whole is the record of the frame read. */
  lemma WholeIsRecord(sum: Checksum, d: seq<byte>)
    requires ReadRecord(sum, d).Whole?
    ensures var n := ReadRecord(sum, d);
            Storable(n.frame) && n.size == RecordSize(n.frame.payload) && n.size <= |d| && d[..n.size] == Record(sum, n.frame)
  {
    var n := ReadRecord(sum, d);
    var f := n.frame;
    var h := d[..HEADER];
    Bounds();
    FromBeBound(d[8..16]);
    FromBeBound(d[16..24]);
    HeaderBytes(sum, d, f);
    assert d[..n.size] == h + (f.payload + COMMIT) by {
      var length := |f.payload|;
      assert d[HEADER..HEADER + length] == f.payload && d[HEADER + length..HEADER + length + MARKER] == COMMIT;
      Joined(d, HEADER, HEADER + length, n.size);
    }
  }

  lemma Joined(d: seq<byte>, a: nat, b: nat, c: nat)
    requires a <= b <= c <= |d|
    ensures d[..c] == d[..a] + (d[a..b] + d[b..c])
  {
  }

  lemma HeaderBytes(sum: Checksum, d: seq<byte>, f: Frame)
    requires |d| >= HEADER && |f.payload| == FromBe(d[..4]) && Crc(sum, f.payload) == FromBe(d[4..8])
    requires f.index == FromBe(d[8..16]) && f.stamp == FromBe(d[16..24]) && f.direction == d[24]
    ensures d[..HEADER] == Header(sum, f)
  {
    BytesRound(d[..4]);
    BytesRound(d[4..8]);
    BytesRound(d[8..16]);
    BytesRound(d[16..24]);
    FiveParts(d);
  }

  lemma FiveParts(d: seq<byte>)
    requires |d| >= 25
    ensures d[..25] == d[..4] + (d[4..8] + (d[8..16] + (d[16..24] + [d[24]])))
  {
  }

  /** A frame is read from d exactly if its record stands in front; nothing else but the end is anything but corrupt. */
  lemma ReadRecordExact(sum: Checksum, d: seq<byte>, f: Frame, size: nat)
    ensures ReadRecord(sum, d) == Whole(f, size)
            <==> Storable(f) && size == RecordSize(f.payload) && size <= |d| && d[..size] == Record(sum, f)
    ensures ReadRecord(sum, d) == End <==> d == []
  {
    if ReadRecord(sum, d).Whole? {
      WholeIsRecord(sum, d);
    }
    if Storable(f) && size == RecordSize(f.payload) && size <= |d| && d[..size] == Record(sum, f) {
      RecordRead(sum, f, d[size..]);
      assert Record(sum, f) + d[size..] == d;
    }
  }

  /** A storable frame's record stands in front. */
  ghost predicate StartsWhole(sum: Checksum, d: seq<byte>) {
    exists f :: Storable(f) && RecordSize(f.payload) <= |d| && d[..RecordSize(f.payload)] == Record(sum, f)
  }

  lemma StartsExact(sum: Checksum, d: seq<byte>)
    ensures StartsWhole(sum, d) <==> ReadRecord(sum, d).Whole?
  {
    if f :| Storable(f) && RecordSize(f.payload) <= |d| && d[..RecordSize(f.payload)] == Record(sum, f) {
      ReadRecordExact(sum, d, f, RecordSize(f.payload));
    }
    if ReadRecord(sum, d).Whole? {
      WholeIsRecord(sum, d);
    }
  }

  /** The segment is the records of these frames and a rest that starts with no whole record; clean if there is no rest. */
  ghost predicate IsReplay(sum: Checksum, d: seq<byte>, r: Replayed) {
    && AllStorable(r.frames) && SizeOf(r.frames) <= |d| && d[..SizeOf(r.frames)] == Encoded(sum, r.frames)
    && !StartsWhole(sum, d[SizeOf(r.frames)..])
    && (r.clean <==> SizeOf(r.frames) == |d|)
  }

  /** Replay submits the frames whose records the segment starts with, as many as there are, and no others. */
  lemma {:induction false} ReplayIs(sum: Checksum, d: seq<byte>)
    ensures IsReplay(sum, d, Replay(sum, d))
    decreases |d|
  {
    StartsExact(sum, d);
    if ReadRecord(sum, d).Whole? {
      var f, size := ReadRecord(sum, d).frame, ReadRecord(sum, d).size;
      WholeIsRecord(sum, d);
      ReplayIs(sum, d[size..]);
      ReplayFront(sum, d, f, size, Replay(sum, d[size..]));
    }
  }

  lemma ReplayFront(sum: Checksum, d: seq<byte>, f: Frame, size: nat, rest: Replayed)
    requires Storable(f) && size == RecordSize(f.payload) <= |d| && d[..size] == Record(sum, f)
    requires IsReplay(sum, d[size..], rest)
    ensures IsReplay(sum, d, Replayed([f] + rest.frames, rest.clean))
  {
    var frames, n := [f] + rest.frames, SizeOf(rest.frames);
    assert frames[1..] == rest.frames;
    assert d[..size + n] == d[..size] + d[size..][..n];
    assert d[size..][n..] == d[size + n..];
  }

  lemma {:induction false} OneReplay(sum: Checksum, d: seq<byte>, a: Replayed, b: Replayed)
    requires IsReplay(sum, d, a) && IsReplay(sum, d, b)
    ensures a == b
    decreases |a.frames|
  {
    if a.frames != [] && b.frames != [] {
      FirstIs(sum, d, a);
      FirstIs(sum, d, b);
      var size := RecordSize(a.frames[0].payload);
      OneReplay(sum, d[size..], Replayed(a.frames[1..], a.clean), Replayed(b.frames[1..], b.clean));
      assert a.frames == [a.frames[0]] + a.frames[1..] && b.frames == [b.frames[0]] + b.frames[1..];
    } else if a.frames != [] {
      NoneIs(sum, d, b);
      FirstIs(sum, d, a);
    } else if b.frames != [] {
      NoneIs(sum, d, a);
      FirstIs(sum, d, b);
    }
  }

  lemma NoneIs(sum: Checksum, d: seq<byte>, r: Replayed)
    requires IsReplay(sum, d, r) && r.frames == []
    ensures !ReadRecord(sum, d).Whole?
  {
    assert d[0..] == d;
    StartsExact(sum, d);
  }

  lemma FirstIs(sum: Checksum, d: seq<byte>, r: Replayed)
    requires IsReplay(sum, d, r) && r.frames != []
    ensures var size := RecordSize(r.frames[0].payload);
            ReadRecord(sum, d) == Whole(r.frames[0], size) && size <= |d| && IsReplay(sum, d[size..], Replayed(r.frames[1..], r.clean))
  {
    var f, n := r.frames[0], SizeOf(r.frames);
    var size := RecordSize(f.payload);
    var rest := Encoded(sum, r.frames[1..]);
    assert d[..n] == Record(sum, f) + rest;
    assert d[..size] == d[..n][..size] && d[size..][..n - size] == d[..n][size..];
    assert d[size..][n - size..] == d[n..];
    ReadRecordExact(sum, d, f, size);
  }

  lemma ReplayExact(sum: Checksum, d: seq<byte>, r: Replayed)
    ensures Replay(sum, d) == r <==> IsReplay(sum, d, r)
  {
    ReplayIs(sum, d);
    if IsReplay(sum, d, r) {
      OneReplay(sum, d, r, Replay(sum, d));
    }
  }
}
