/**
 The plain capture format of internal/capture/capture.go: four bytes of length, then the
 frame; how it is scanned, what is within the limits, and what can be wrong.
 */
module CaptureFormat {
  import opened Prelude
  import Records

  const MAX_FRAME := 0x400_0000
  const MAX_BYTES := 0x1000_0000
  const MAX_FRAMES := 0x10_0000

  type Frame = seq<byte>

  // ---------------------------------------------------------------- the format

  function Framed(f: Frame): (d: seq<byte>)
    ensures |d| == 4 + |f|
  {
    Records.Be(|f|, 4) + f
  }

  function Framing(frames: seq<Frame>): seq<byte> {
    if frames == [] then [] else Framing(frames[..|frames| - 1]) + Framed(frames[|frames| - 1])
  }

  function Total(frames: seq<Frame>): nat {
    if frames == [] then 0 else Total(frames[..|frames| - 1]) + |frames[|frames| - 1]|
  }

  datatype Error = Truncated | FrameTooLarge | TooManyFrames | CaptureTooLarge | SinkFailed | SubmitFailed

  datatype Scanned = Good(frames: seq<Frame>) | Bad(error: Error)

  /** Limits as validateReader takes them; 0 is no limit. */
  datatype Limits = Limits(bytes: nat, frames: nat)

  const REPLAY := Limits(MAX_BYTES, MAX_FRAMES)
  const NO_LIMITS := Limits(0, 0)

  /** What stands at the front of d, after n frames of total bytes. */
  datatype Step = Done | Broken(error: Error) | Next(frame: Frame)

  function FrontStep(d: seq<byte>, n: nat, total: nat, limits: Limits): (s: Step)
    ensures s.Next? ==> 4 + |s.frame| <= |d|
  {
    if d == [] then Done
    else if |d| < 4 then Broken(Truncated)
    else
      var length := Records.FromBe(d[..4]);
      if length > MAX_FRAME then Broken(FrameTooLarge)
      else if limits.frames != 0 && n + 1 > limits.frames then Broken(TooManyFrames)
      else if limits.bytes != 0 && total + length > limits.bytes then Broken(CaptureTooLarge)
      else if |d| < 4 + length then Broken(Truncated)
      else Next(d[4..4 + length])
  }

  function Prepend(frames: seq<Frame>, s: Scanned): Scanned {
    match s
    case Bad(e) => Bad(e)
    case Good(rest) => Good(frames + rest)
  }

  /** The frames of d, or the first thing wrong with it. */
  function Scan(d: seq<byte>, n: nat, total: nat, limits: Limits): Scanned
    decreases |d|
  {
    match FrontStep(d, n, total, limits)
    case Done => Good([])
    case Broken(e) => Bad(e)
    case Next(f) => Prepend([f], Scan(d[4 + |f|..], n + 1, total + |f|, limits))
  }

  function Frames(d: seq<byte>, limits: Limits): Scanned { Scan(d, 0, 0, limits) }

  /** The first frames of d, up to i, are read; sealed. */
  ghost predicate Reached(whole: Scanned, d: seq<byte>, i: nat, done: seq<Frame>, limits: Limits) {
    && i <= |d|
    && forall question: nat {:trigger Asked(question)} | Asked(question) ::
         whole == Prepend(done, Scan(d[i..], |done|, Total(done), limits))
  }

  /** The frame f stands at i; sealed. */
  ghost predicate Stands(d: seq<byte>, i: nat, f: Frame, n: nat, total: nat, limits: Limits) {
    && i <= |d|
    && forall question: nat {:trigger Asked(question)} | Asked(question) :: FrontStep(d[i..], n, total, limits) == Next(f)
  }

  /** Scan, sealed: proofs look one frame ahead. */
  ghost predicate Scans(d: seq<byte>, n: nat, total: nat, limits: Limits, s: Scanned) {
    forall question: nat {:trigger Asked(question)} | Asked(question) :: Scan(d, n, total, limits) == s
  }

  // ---------------------------------------------------------------- what is accepted, and what is wrong with the rest

  predicate Small(frames: seq<Frame>) { forall f | f in frames :: |f| <= MAX_FRAME }

  predicate Within(limits: Limits, n: nat, total: nat) {
    (limits.frames == 0 || n <= limits.frames) && (limits.bytes == 0 || total <= limits.bytes)
  }

  function FramingFront(frames: seq<Frame>): seq<byte> {
    if frames == [] then [] else Framed(frames[0]) + FramingFront(frames[1..])
  }

  function TotalFront(frames: seq<Frame>): nat {
    if frames == [] then 0 else |frames[0]| + TotalFront(frames[1..])
  }

  /** The length in front, most significant byte first. */
  function Length(d: seq<byte>): nat
    requires |d| >= 4
  {
    var a: nat, b: nat, c: nat := d[0], d[1], d[2];
    a * 0x100_0000 + b * 0x1_0000 + c * 0x100 + d[3]
  }

  /** What is wrong with bytes that no accepted frame starts, in the order in which it is noticed. */
  predicate Fault(d: seq<byte>, n: nat, total: nat, limits: Limits, e: Error) {
    if |d| < 4 then d != [] && e == Truncated
    else if Length(d) > 0x400_0000 then e == FrameTooLarge
    else if limits.frames > 0 && n == limits.frames then e == TooManyFrames
    else if limits.bytes > 0 && Length(d) > limits.bytes - total then e == CaptureTooLarge
    else |d| - 4 < Length(d) && e == Truncated
  }

  ghost predicate Rejected(d: seq<byte>, limits: Limits, e: Error, frames: seq<Frame>, rest: seq<byte>) {
    && d == Framing(frames) + rest && Small(frames) && Within(limits, |frames|, Total(frames))
    && Fault(rest, |frames|, Total(frames), limits, e)
  }
}
