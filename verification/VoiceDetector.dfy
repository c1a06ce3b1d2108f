// The voice activity detector and the bounded buffers it and the recorder fill.
//
// The microphone is an input: each poll carries what raw_stream_read would deliver, and
// a read returns at most what was asked for. The root mean square is taken over the
// reals; rounding of the division and of the square root is not part of the model.
module VoiceDetector {
  import opened Wrappers

  type Sample = x: int | -32768 <= x <= 32767
  type byte = x: int | 0 <= x < 256

  const FRAME_SAMPLES: nat := 1323
  const FRAME_BYTES: nat := 2646
  const TRIGGER_FRAMES: nat := 6
  const COOLDOWN_US: int := 2_000_000

  // ---- Loudness ----

  function SumSquares(samples: seq<Sample>): nat {
    if samples == [] then 0
    else
      var last: int := samples[|samples| - 1];
      Square(last);
      SumSquares(samples[..|samples| - 1]) + last * last
  }

  lemma Square(x: int)
    requires -32768 <= x <= 32768
    ensures 0 <= x * x <= 0x4000_0000
  {
    if x >= 0 { MulMono(x, 32768); } else { MulMono(-x, 32768); }
  }

  lemma MulMono(a: nat, b: nat)
    requires a <= b
    ensures 0 <= a * a <= b * b
  {
  }

  // Every partial sum of a frame is an integer that a double holds exactly.
  lemma {:induction false} SumSquaresExact(samples: seq<Sample>)
    requires |samples| <= FRAME_SAMPLES
    ensures SumSquares(samples) <= |samples| * 0x4000_0000 < 0x20_0000_0000_0000
  {
    if samples != [] {
      Square(samples[|samples| - 1]);
      SumSquaresExact(samples[..|samples| - 1]);
    }
  }

  // The sum of the squares of the samples, in whatever parts they come.
  lemma {:induction false} SumSquaresJoin(a: seq<Sample>, b: seq<Sample>)
    ensures SumSquares(a + b) == SumSquares(a) + SumSquares(b)
  {
    if b == [] {
      assert a + b == a;
    } else {
      assert (a + b)[..|a| + |b| - 1] == a + b[..|b| - 1];
      SumSquaresJoin(a, b[..|b| - 1]);
    }
  }

  lemma SumSquaresOfOne(x: Sample)
    ensures SumSquares([]) == 0 && SumSquares([x]) == x * x
  {
    assert [x][..0] == [];
  }

  predicate Loud(samples: seq<Sample>, threshold: int) {
    threshold < 0 || SumSquares(samples) > threshold * threshold * FRAME_SAMPLES
  }

  // The root mean square of the samples of a frame.
  ghost predicate IsRms(rms: real, samples: seq<Sample>) {
    rms >= 0.0 && rms * rms * 1323.0 == SumSquares(samples) as real
  }

  lemma PositiveProduct(a: real, b: real)
    requires a > 0.0 && b > 0.0
    ensures a * b > 0.0
  {
  }

  lemma SquareOrder(a: real, b: real)
    requires a >= 0.0 && b >= 0.0
    ensures a > b <==> a * a > b * b
  {
    if a > b {
      PositiveProduct(a - b, a + b);
      assert a * a - b * b == (a - b) * (a + b);
    } else {
      assert b * b - a * a == (b - a) * (a + b);
    }
  }

  // Comparing the sum of squares decides what the firmware decides on the square root.
  lemma LoudIffRms(samples: seq<Sample>, threshold: int, rms: real)
    requires IsRms(rms, samples)
    ensures Loud(samples, threshold) <==> rms > threshold as real
  {
    if threshold >= 0 {
      var t := threshold as real;
      SquareOrder(rms, t);
      assert t * t == (threshold * threshold) as real;
      assert rms * rms > t * t <==> rms * rms * 1323.0 > t * t * 1323.0;
    }
  }

  method MeasureLoud(frame: seq<Sample>, threshold: int) returns (loud: bool)
    requires |frame| == FRAME_SAMPLES
    ensures loud <==> Loud(frame, threshold)
  {
    var sum := 0;
    for i := 0 to |frame|
      invariant sum == SumSquares(frame[..i])
    {
      assert frame[..i + 1][..i] == frame[..i];
      var sample: int := frame[i];
      sum := sum + sample * sample;
    }
    assert frame[..|frame|] == frame;
    loud := threshold < 0 || sum > threshold * threshold * FRAME_SAMPLES;
  }

  // ---- Debounce ----

  // One pass of the detector loop: the stream flag was up, too little audio arrived, or a
  // whole frame was measured against the threshold configured at that time.
  datatype Round =
    | Streaming
    | Short
    | Frame(samples: seq<Sample>, threshold: int, now: int)

  predicate WellFormed(rounds: seq<Round>) {
    forall i :: 0 <= i < |rounds| && rounds[i].Frame? ==> |rounds[i].samples| == FRAME_SAMPLES
  }

  predicate IsLoud(r: Round) { r.Frame? && Loud(r.samples, r.threshold) }

  predicate Breaks(r: Round) { r.Streaming? || (r.Frame? && !Loud(r.samples, r.threshold)) }

  // Loud frames since the last quiet frame or streaming pass; short rounds do not count.
  function LoudRun(rounds: seq<Round>): nat {
    if rounds == [] then 0
    else
      var last := rounds[|rounds| - 1];
      if Breaks(last) then 0 else LoudRun(rounds[..|rounds| - 1]) + (if IsLoud(last) then 1 else 0)
  }

  function LoudCount(rounds: seq<Round>): nat {
    if rounds == [] then 0
    else LoudCount(rounds[..|rounds| - 1]) + (if IsLoud(rounds[|rounds| - 1]) then 1 else 0)
  }

  // LoudRun counts the loud frames of the longest unbroken stretch at the end.
  lemma {:induction false} LoudRunIsWindow(rounds: seq<Round>) returns (lo: nat)
    ensures lo <= |rounds| && LoudCount(rounds[lo..]) == LoudRun(rounds)
    ensures forall k :: lo <= k < |rounds| ==> !Breaks(rounds[k])
    ensures lo > 0 ==> Breaks(rounds[lo - 1])
  {
    if rounds == [] {
      lo := 0;
    } else {
      var n := |rounds| - 1;
      if Breaks(rounds[n]) {
        lo := |rounds|;
      } else {
        lo := LoudRunIsWindow(rounds[..n]);
        assert rounds[lo..][..n - lo] == rounds[..n][lo..];
      }
    }
  }

  // The last round is a loud frame that completes a multiple of six, after the cooldown.
  predicate Triggers(rounds: seq<Round>)
    decreases |rounds|, 1
  {
    && rounds != [] && IsLoud(rounds[|rounds| - 1])
    && LoudRun(rounds) % TRIGGER_FRAMES == 0
    && rounds[|rounds| - 1].now - LastTrigger(rounds[..|rounds| - 1]) > COOLDOWN_US
  }

  function LastTrigger(rounds: seq<Round>): int
    decreases |rounds|, 2
  {
    if rounds == [] then 0
    else if Triggers(rounds) then rounds[|rounds| - 1].now
    else LastTrigger(rounds[..|rounds| - 1])
  }

  lemma {:induction false} LastTriggerBound(rounds: seq<Round>, i: nat)
    requires i < |rounds| && Triggers(rounds[..i + 1])
    ensures LastTrigger(rounds) >= rounds[i].now
  {
    var n := |rounds| - 1;
    if i == n {
      assert rounds[..i + 1] == rounds;
    } else {
      assert rounds[..n][..i + 1] == rounds[..i + 1];
      LastTriggerBound(rounds[..n], i);
    }
  }

  // Each trigger ends at least six loud frames with nothing quiet and no streaming pass
  // between them, and any two triggers are more than two seconds apart.
  lemma TriggersAreSpaced(rounds: seq<Round>, i: nat, j: nat)
    requires i < j < |rounds| && Triggers(rounds[..i + 1]) && Triggers(rounds[..j + 1])
    ensures rounds[j].now - rounds[i].now > COOLDOWN_US
  {
    assert rounds[..j + 1][..j] == rounds[..j] && rounds[..j][..i + 1] == rounds[..i + 1];
    LastTriggerBound(rounds[..j], i);
  }

  lemma TriggerEndsSixLoudFrames(rounds: seq<Round>) returns (lo: nat)
    requires Triggers(rounds)
    ensures lo < |rounds| && LoudCount(rounds[lo..]) >= TRIGGER_FRAMES && LoudCount(rounds[lo..]) % TRIGGER_FRAMES == 0
    ensures forall k :: lo <= k < |rounds| ==> rounds[k].Short? || IsLoud(rounds[k])
  {
    lo := LoudRunIsWindow(rounds);
    assert LoudRun(rounds) >= 1;
  }

  // A stretch that ends with round `n`: nothing quiet and no streaming pass in it, and one
  // of them, or nothing at all, right before it.
  predicate IsStretch(rounds: seq<Round>, lo: nat, n: nat) {
    && lo <= n < |rounds|
    && (forall k :: lo <= k <= n ==> rounds[k].Short? || IsLoud(rounds[k]))
    && (lo > 0 ==> rounds[lo - 1].Streaming? || (rounds[lo - 1].Frame? && !IsLoud(rounds[lo - 1])))
  }

  lemma StretchIs(rounds: seq<Round>, n: nat)
    requires n < |rounds|
    ensures IsLoud(rounds[n]) ==>
      (LoudRun(rounds[..n + 1]) % 6 == 0 <==> exists lo: nat :: IsStretch(rounds, lo, n) && LoudCount(rounds[lo..n + 1]) % 6 == 0)
  {
    var lo := LoudRunIsWindow(rounds[..n + 1]);
    if IsLoud(rounds[n]) {
      assert rounds[..n + 1][n] == rounds[n];
      assert rounds[..n + 1][lo..] == rounds[lo..n + 1];
      assert IsStretch(rounds, lo, n);
      forall k: nat | IsStretch(rounds, k, n) ensures k == lo {
        StretchStarts(rounds, k, lo, n);
        StretchStarts(rounds, lo, k, n);
      }
    }
  }

  lemma StretchStarts(rounds: seq<Round>, a: nat, b: nat, n: nat)
    requires IsStretch(rounds, a, n) && IsStretch(rounds, b, n)
    ensures a >= b
  {
  }

  predicate TriggersAt(rounds: seq<Round>, i: int) { 0 <= i < |rounds| && Triggers(rounds[..i + 1]) }

  // The last trigger, if there was one, and its time.
  lemma {:induction false} LastTriggerIs(rounds: seq<Round>, n: nat) returns (last: Option<nat>)
    requires n <= |rounds|
    ensures last.Some? ==> last.value < n && TriggersAt(rounds, last.value) && LastTrigger(rounds[..n]) == rounds[last.value].now
    ensures last.None? ==> LastTrigger(rounds[..n]) == 0
    ensures forall k :: (if last.Some? then last.value + 1 else 0) <= k < n ==> !TriggersAt(rounds, k)
  {
    last := None;
    if n > 0 {
      assert rounds[..n][..n - 1] == rounds[..n - 1];
      if Triggers(rounds[..n]) {
        last := Some(n - 1);
      } else {
        last := LastTriggerIs(rounds, n - 1);
        assert !TriggersAt(rounds, n - 1);
      }
    }
  }

  // Every earlier trigger, and the start, is more than two seconds before the time.
  predicate Rested(rounds: seq<Round>, n: nat, now: int)
    requires n <= |rounds|
  {
    if exists i :: 0 <= i < n && TriggersAt(rounds, i)
    then forall i :: 0 <= i < n && TriggersAt(rounds, i) ==> now - rounds[i].now > 2_000_000
    else now > 2_000_000
  }

  lemma RestedIs(rounds: seq<Round>, n: nat, now: int)
    requires n <= |rounds|
    ensures now - LastTrigger(rounds[..n]) > 2_000_000 <==> Rested(rounds, n, now)
  {
    var last := LastTriggerIs(rounds, n);
    if last.Some? {
      forall i | 0 <= i < last.value && TriggersAt(rounds, i) ensures rounds[i].now < rounds[last.value].now {
        TriggersAreSpaced(rounds, i, last.value);
      }
    }
  }

  // Exactly when a round triggers: it is a loud frame, the loud frames of its stretch are a
  // multiple of six, and the detector is rested.
  lemma TriggersIff(rounds: seq<Round>, n: nat)
    requires n < |rounds|
    ensures Triggers(rounds[..n + 1]) <==>
      && IsLoud(rounds[n])
      && (exists lo: nat :: IsStretch(rounds, lo, n) && LoudCount(rounds[lo..n + 1]) % 6 == 0)
      && Rested(rounds, n, rounds[n].now)
  {
    StretchIs(rounds, n);
    assert rounds[..n + 1][..n] == rounds[..n] && rounds[..n + 1][n] == rounds[n];
    if IsLoud(rounds[n]) { RestedIs(rounds, n, rounds[n].now); }
  }

  // ---- Bounded buffers ----

  datatype Read = Data(bytes: seq<byte>) | Failed

  function Min(a: nat, b: nat): nat { if a <= b then a else b }

  // A frame poll carries the time since the frame began; a recording poll says whether a
  // STOP command arrived before it.
  datatype FramePoll = FramePoll(elapsedUs: int, read: Read)
  datatype RecordPoll = RecordPoll(stopped: bool, read: Read)

  // Everything read before the first timeout or read error.
  function Heard(polls: seq<FramePoll>): seq<byte> {
    if polls == [] || polls[0].elapsedUs >= 200000 || polls[0].read.Failed? then []
    else polls[0].read.bytes + Heard(polls[1..])
  }

  // Everything read before the first STOP; read errors deliver nothing.
  function Recorded(polls: seq<RecordPoll>): seq<byte> {
    if polls == [] || polls[0].stopped then []
    else (if polls[0].read.Failed? then [] else polls[0].read.bytes) + Recorded(polls[1..])
  }

  function Concat(parts: seq<seq<byte>>): seq<byte> { if parts == [] then [] else parts[0] + Concat(parts[1..]) }

  // A frame hears the reads that came within 200 ms and before the first error.
  lemma {:induction false} HeardIs(polls: seq<FramePoll>, n: nat)
    requires n <= |polls| && forall i :: 0 <= i < n ==> polls[i].elapsedUs < 200_000 && polls[i].read.Data?
    requires n < |polls| ==> polls[n].elapsedUs >= 200_000 || polls[n].read.Failed?
    ensures Heard(polls) == Concat(seq(n, i requires 0 <= i < n => polls[i].read.bytes))
  {
    if n > 0 {
      HeardIs(polls[1..], n - 1);
      assert seq(n, i requires 0 <= i < n => polls[i].read.bytes)[1..]
          == seq(n - 1, i requires 0 <= i < n - 1 => polls[1..][i].read.bytes);
    }
  }

  // A recording keeps the reads that came before the first STOP.
  lemma {:induction false} RecordedIs(polls: seq<RecordPoll>, n: nat)
    requires n <= |polls| && (forall i :: 0 <= i < n ==> !polls[i].stopped) && (n < |polls| ==> polls[n].stopped)
    ensures Recorded(polls) == Concat(seq(n, i requires 0 <= i < n => if polls[i].read.Data? then polls[i].read.bytes else []))
  {
    if n > 0 {
      RecordedIs(polls[1..], n - 1);
      assert seq(n, i requires 0 <= i < n => if polls[i].read.Data? then polls[i].read.bytes else [])[1..]
          == seq(n - 1, i requires 0 <= i < n - 1 => if polls[1..][i].read.Data? then polls[1..][i].read.bytes else []);
    }
  }

  function Cut(bytes: seq<byte>, limit: nat): seq<byte> { bytes[..Min(|bytes|, limit)] }

  // `got` has arrived; once `rest` has, the buffer holds `all` cut to the limit.
  predicate Fills(got: seq<byte>, rest: seq<byte>, all: seq<byte>, limit: nat) {
    |got| <= limit && Cut(all, limit) == got + Cut(rest, limit - |got|)
  }

  // A chunk enters whole or fills the room that is left.
  lemma FillStep(got: seq<byte>, chunk: seq<byte>, rest: seq<byte>, all: seq<byte>, limit: nat)
    requires Fills(got, chunk + rest, all, limit)
    ensures Fills(got + Cut(chunk, limit - |got|), rest, all, limit)
  {
    var room := limit - |got|;
    assert Cut(chunk + rest, room) == Cut(chunk, room) + Cut(rest, room - |Cut(chunk, room)|);
  }

  method CopyInto(buffer: array<byte>, at: nat, bytes: seq<byte>)
    requires at + |bytes| <= buffer.Length
    modifies buffer
    ensures buffer[..at + |bytes|] == old(buffer[..at]) + bytes
    ensures buffer[at + |bytes|..] == old(buffer[at + |bytes|..])
  {
    forall k | 0 <= k < |bytes| { buffer[at + k] := bytes[k]; }
  }

  // The chunk, or as much of it as the buffer still takes.
  method CopyChunk(buffer: array<byte>, at: nat, bytes: seq<byte>) returns (next: nat)
    requires at <= buffer.Length
    modifies buffer
    ensures next == at + Min(|bytes|, buffer.Length - at)
    ensures buffer[..next] == old(buffer[..at]) + Cut(bytes, buffer.Length - at)
    ensures buffer[next..] == old(buffer[..])[next..]
  {
    var n := |bytes|;
    if at + n > buffer.Length {
      n := buffer.Length - at;
    }
    CopyInto(buffer, at, bytes[..n]);
    next := at + n;
  }

  // The frame-filling loop of vad_task: never past the frame, and exactly what was read.
  method FillFrame(frame: array<byte>, polls: seq<FramePoll>) returns (have: nat)
    requires frame.Length == FRAME_BYTES
    modifies frame
    ensures have <= FRAME_BYTES && frame[..have] == Cut(Heard(polls), FRAME_BYTES)
    ensures frame[have..] == old(frame[..])[have..]
  {
    have := 0;
    var i := 0;
    ghost var rest := Heard(polls);
    while have < FRAME_BYTES && i < |polls| && polls[i].elapsedUs < 200000
      invariant i <= |polls| && have <= FRAME_BYTES && rest == Heard(polls[i..])
      invariant frame[have..] == old(frame[..])[have..]
      invariant Fills(frame[..have], rest, Heard(polls), FRAME_BYTES)
      decreases |polls| - i
    {
      if polls[i].read.Failed? {
        break;
      }
      var bytes := polls[i].read.bytes;
      assert polls[i..][1..] == polls[i + 1..];
      rest := Heard(polls[i + 1..]);
      FillStep(frame[..have], bytes, rest, Heard(polls), FRAME_BYTES);
      have := CopyChunk(frame, have, bytes);
      i := i + 1;
    }
  }

  // ---- The detector task ----

  // Two bytes, low first, as a signed 16-bit sample.
  function Decode(lo: byte, hi: byte): Sample {
    var n: int := 256 * hi + lo;
    if n < 32768 then n else n - 65536
  }

  function Samples(bytes: seq<byte>): seq<Sample>
    requires |bytes| % 2 == 0
  {
    seq(|bytes| / 2, k requires 0 <= k < |bytes| / 2 => Decode(bytes[2 * k], bytes[2 * k + 1]))
  }

  // Samples as the codec delivers them: two bytes each, low byte first, two's complement.
  predicate Encodes(bytes: seq<byte>, samples: seq<Sample>) {
    && |bytes| == 2 * |samples|
    && forall k :: 0 <= k < |samples| ==>
         var x: int := samples[k];
         bytes[2 * k] == x % 256 && bytes[2 * k + 1] == (x % 65536) / 256
  }

  // Reading such bytes gives the samples back.
  lemma SamplesRoundTrip(bytes: seq<byte>, samples: seq<Sample>)
    requires Encodes(bytes, samples)
    ensures Samples(bytes) == samples
  {
    forall k | 0 <= k < |samples| ensures Decode(bytes[2 * k], bytes[2 * k + 1]) == samples[k] {
      DecodeRoundTrip(samples[k]);
    }
  }

  lemma DecodeRoundTrip(x: int)
    requires -32768 <= x <= 32767
    ensures 0 <= x % 256 < 256 && 0 <= (x % 65536) / 256 < 256
    ensures Decode(x % 256, (x % 65536) / 256) == x
  {
    var n := x % 65536;
    assert n == if x >= 0 then x else x + 65536;
    assert n % 256 == x % 256;
  }

  // What one pass of the loop meets: the stream flag up, or the polls that follow, with the
  // threshold configured and the time at which the frame has been measured.
  datatype Pass = Busy | Listen(polls: seq<FramePoll>, threshold: int, now: int)

  // A frame is measured when all its bytes came before the first timeout or error.
  function RoundOf(pass: Pass): Round {
    match pass
    case Busy => Streaming
    case Listen(polls, threshold, now) =>
      if |Heard(polls)| < FRAME_BYTES then Short else Frame(Samples(Heard(polls)[..FRAME_BYTES]), threshold, now)
  }

  // A pass is a frame of exactly the samples its first 2646 bytes encode.
  lemma RoundIs(polls: seq<FramePoll>, threshold: int, now: int, samples: seq<Sample>)
    ensures RoundOf(Busy) == Streaming
    ensures |Heard(polls)| < 2646 ==> RoundOf(Listen(polls, threshold, now)) == Short
    ensures |Heard(polls)| >= 2646 && Encodes(Heard(polls)[..2646], samples) ==>
      RoundOf(Listen(polls, threshold, now)) == Frame(samples, threshold, now)
  {
    if |Heard(polls)| >= 2646 && Encodes(Heard(polls)[..2646], samples) { SamplesRoundTrip(Heard(polls)[..2646], samples); }
  }

  function Rounds(passes: seq<Pass>): (rounds: seq<Round>)
    ensures |rounds| == |passes| && WellFormed(rounds)
  {
    seq(|passes|, i requires 0 <= i < |passes| => RoundOf(passes[i]))
  }

  method ReadFrame(frame: array<byte>) returns (samples: seq<Sample>)
    requires frame.Length == FRAME_BYTES
    ensures samples == Samples(frame[..])
  {
    samples := [];
    for k := 0 to FRAME_SAMPLES
      invariant |samples| == k && forall i :: 0 <= i < k ==> samples[i] == Decode(frame[2 * i], frame[2 * i + 1])
    {
      samples := samples + [Decode(frame[2 * k], frame[2 * k + 1])];
    }
  }

  // One pass up to the threshold test: fill the frame, then measure it if it is full.
  method Measure(frame: array<byte>, polls: seq<FramePoll>, threshold: int) returns (full: bool, loud: bool)
    requires frame.Length == FRAME_BYTES
    modifies frame
    ensures full <==> |Heard(polls)| >= FRAME_BYTES
    ensures full ==> (loud <==> Loud(Samples(Heard(polls)[..FRAME_BYTES]), threshold))
    ensures full ==> forall samples: seq<Sample>, rms: real ::
      Encodes(Heard(polls)[..FRAME_BYTES], samples) && IsRms(rms, samples) ==> (loud <==> rms > threshold as real)
  {
    forall samples: seq<Sample>, rms: real
      | |Heard(polls)| >= FRAME_BYTES && Encodes(Heard(polls)[..FRAME_BYTES], samples) && IsRms(rms, samples)
      ensures Loud(Samples(Heard(polls)[..FRAME_BYTES]), threshold) <==> rms > threshold as real
    {
      SamplesRoundTrip(Heard(polls)[..FRAME_BYTES], samples);
      LoudIffRms(samples, threshold, rms);
    }
    var have := FillFrame(frame, polls);
    full, loud := have == FRAME_BYTES, false;
    if full {
      assert frame[..have] == frame[..];
      var samples := ReadFrame(frame);
      loud := MeasureLoud(samples, threshold);
    }
  }

  // vad_task over any sequence of passes: the passes that trigger are exactly those whose
  // round completes a sixth loud frame in a row once the cooldown has passed.
  method VadTask(passes: seq<Pass>) returns (triggers: seq<nat>, speechFrames: nat)
    ensures speechFrames < TRIGGER_FRAMES && speechFrames == LoudRun(Rounds(passes)) % TRIGGER_FRAMES
    ensures forall i: nat :: i in triggers <==> i < |passes| && Triggers(Rounds(passes)[..i + 1])
    ensures forall a, b :: 0 <= a < b < |triggers| ==> triggers[a] < triggers[b]
  {
    ghost var rounds := Rounds(passes);
    var frame := new byte[FRAME_BYTES];
    triggers, speechFrames := [], 0;
    var lastTriggerUs := 0;
    for i := 0 to |passes|
      invariant speechFrames < TRIGGER_FRAMES && speechFrames == LoudRun(rounds[..i]) % TRIGGER_FRAMES
      invariant lastTriggerUs == LastTrigger(rounds[..i])
      invariant forall k :: 0 <= k < |triggers| ==> triggers[k] < i
      invariant forall k: nat :: k in triggers <==> k < i && Triggers(rounds[..k + 1])
      invariant forall a, b :: 0 <= a < b < |triggers| ==> triggers[a] < triggers[b]
    {
      assert rounds[..i + 1][..i] == rounds[..i] && rounds[i] == RoundOf(passes[i]);
      match passes[i]
      case Busy =>
        speechFrames := 0;
      case Listen(polls, threshold, now) =>
        var full, loud := Measure(frame, polls, threshold);
        if full {
          speechFrames := if loud then speechFrames + 1 else 0;
          if speechFrames >= TRIGGER_FRAMES {
            if now - lastTriggerUs > COOLDOWN_US {
              lastTriggerUs := now;
              triggers := triggers + [i];
            }
            speechFrames := 0;
          }
        }
    }
    assert rounds[..|passes|] == rounds;
  }

  // ---- Recording ----

  const BYTES_PER_SEC: nat := 88200

  // The recording size in bytes: at most ten seconds, converted to a 32-bit size_t.
  function MinBytes(configuredSec: int): nat {
    var seconds := if configuredSec > 10 then 10 else configuredSec;
    (seconds * BYTES_PER_SEC) % 0x1_0000_0000
  }

  // Within the range whose product fits an int, only a negative setting escapes the bound.
  lemma MinBytesBound(configuredSec: int)
    requires -24347 <= configuredSec
    ensures MinBytes(configuredSec) <= 882000 <==> configuredSec >= 0
    ensures configuredSec >= 0 ==> MinBytes(configuredSec) == 44_100 * 2 * (if configuredSec <= 10 then configuredSec else 10)
  {
    if configuredSec < 0 {
      assert configuredSec * 88200 + 0x1_0000_0000 > 882000;
      assert MinBytes(configuredSec) == configuredSec * 88200 + 0x1_0000_0000;
    }
  }

  class Recorder {
    var recordingActive: bool
    var pcmBytesSent: nat

    // One successful read: the chunk, or as much of it as the buffer still takes.
    method Append(audio: array<byte>, bytes: seq<byte>)
      requires pcmBytesSent <= audio.Length
      modifies this`pcmBytesSent, audio
      ensures pcmBytesSent == old(pcmBytesSent) + Min(|bytes|, audio.Length - old(pcmBytesSent))
      ensures audio[..pcmBytesSent] == old(audio[..pcmBytesSent]) + Cut(bytes, audio.Length - old(pcmBytesSent))
      ensures audio[pcmBytesSent..] == old(audio[..])[pcmBytesSent..]
    {
      pcmBytesSent := CopyChunk(audio, pcmBytesSent, bytes);
    }

    // The recording loop of http_stream_task, over any chunking of the input.
    method BufferAudio(audio: array<byte>, polls: seq<RecordPoll>)
      requires forall i :: 0 <= i < |polls| && polls[i].read.Data? ==> |polls[i].read.bytes| <= 4096
      modifies this, audio
      ensures pcmBytesSent <= audio.Length
      ensures audio[..pcmBytesSent] == Cut(Recorded(polls), audio.Length)
      ensures audio[pcmBytesSent..] == old(audio[..])[pcmBytesSent..]
      ensures !recordingActive ==> exists i :: 0 <= i < |polls| && polls[i].stopped
    {
      pcmBytesSent, recordingActive := 0, true;
      var i := 0;
      ghost var rest := Recorded(polls);
      while recordingActive && pcmBytesSent < audio.Length && i < |polls|
        invariant i <= |polls| && pcmBytesSent <= audio.Length
        invariant audio[pcmBytesSent..] == old(audio[..])[pcmBytesSent..]
        invariant rest == if recordingActive then Recorded(polls[i..]) else []
        invariant Fills(audio[..pcmBytesSent], rest, Recorded(polls), audio.Length)
        invariant !recordingActive ==> exists k :: 0 <= k < |polls| && polls[k].stopped
      {
        if polls[i].stopped {
          recordingActive := false;
        } else {
          assert polls[i..][1..] == polls[i + 1..];
          var bytes := if polls[i].read.Data? then polls[i].read.bytes else [];
          rest := Recorded(polls[i + 1..]);
          FillStep(audio[..pcmBytesSent], bytes, rest, Recorded(polls), audio.Length);
          Append(audio, bytes);
        }
        i := i + 1;
      }
    }
  }
}
