/**
 The RIFF/WAVE decoder: walking the chunks of any byte string, and reading PCM samples as a mono mean stored as a float.
 */
module Wav {
  import opened Common
  import F = FloatRounding

  type Byte = x: int | 0 <= x < 256

  type Bytes = seq<Byte>

  const RIFF: Bytes := [0x52, 0x49, 0x46, 0x46]
  const WAVE: Bytes := [0x57, 0x41, 0x56, 0x45]
  const FMT: Bytes := [0x66, 0x6D, 0x74, 0x20]
  const DATA: Bytes := [0x64, 0x61, 0x74, 0x61]

  const PCM := 1
  const FLOAT := 3
  const EXTENSIBLE := 0xFFFE

  function At(d: Bytes, i: nat): (b: int)
    requires i < |d|
    ensures 0 <= b < 256
  {
    d[i]
  }

  function Le16(d: Bytes, at: nat): (v: nat)
    requires at + 2 <= |d|
    ensures v < 0x1_0000
  {
    At(d, at) + 0x100 * At(d, at + 1)
  }

  function Le24(d: Bytes, at: nat): (v: nat)
    requires at + 3 <= |d|
    ensures v < 0x100_0000
  {
    At(d, at) + 0x100 * At(d, at + 1) + 0x1_0000 * At(d, at + 2)
  }

  function Le32(d: Bytes, at: nat): (v: nat)
    requires at + 4 <= |d|
    ensures v < 0x1_0000_0000
  {
    At(d, at) + 0x100 * At(d, at + 1) + 0x1_0000 * At(d, at + 2) + 0x100_0000 * At(d, at + 3)
  }

  datatype Error =
    | NotRiff | TruncatedFmt | TruncatedExtensible | NoFmt | NoData
    | BadChannels | ZeroRate | BadEncoding | BadDepth | BadAlign | NoSamples

  datatype Format = Format(tag: nat, channels: nat, rate: nat, blockAlign: nat, bits: nat)

  datatype Span = Span(start: nat, len: nat)

  /** What the walk has found so far. */
  datatype Found = Found(fmt: Option<Format>, pcm: Option<Span>)

  // ---- the walk ------------------------------------------------------------------------------------------------

  function Id(d: Bytes, pos: nat): Bytes
    requires pos + 4 <= |d|
  {
    d[pos..pos + 4]
  }

  /** A fmt chunk's body of `len` bytes at `body`. */
  function ReadFormat(d: Bytes, body: nat, len: nat): Result<Format, Error>
    requires body <= |d|
  {
    if len < 16 || len > |d| - body then Failure(TruncatedFmt)
    else
      var f := Format(Le16(d, body), Le16(d, body + 2), Le32(d, body + 4), Le16(d, body + 12), Le16(d, body + 14));
      if f.tag != EXTENSIBLE then Success(f)
      else if len < 26 then Failure(TruncatedExtensible)
      else Success(f.(tag := Le16(d, body + 24)))
  }

  datatype Visited = Visited(found: Found, len: nat, stop: bool)

  /** One chunk: a data length past the end is cut to what is there; data after fmt ends the walk. */
  function Visit(d: Bytes, pos: nat, found: Found): Result<Visited, Error>
    requires pos + 8 <= |d|
  {
    var len, body := Le32(d, pos + 4), pos + 8;
    if Id(d, pos) == FMT then
      match ReadFormat(d, body, len)
      case Failure(e) => Failure(e)
      case Success(f) => Success(Visited(found.(fmt := Some(f)), len, false))
    else if Id(d, pos) == DATA then
      var n := Min(len, |d| - body);
      Success(Visited(found.(pcm := Some(Span(body, n))), n, found.fmt.Some?))
    else Success(Visited(found, len, false))
  }

  function Walk(d: Bytes, pos: nat, found: Found): Result<Found, Error>
    requires pos <= |d|
    decreases |d| - pos
  {
    if pos + 8 > |d| then Success(found)
    else
      match Visit(d, pos, found)
      case Failure(e) => Failure(e)
      case Success(v) =>
        var next := pos + 8 + v.len + v.len % 2;
        if v.stop || next > |d| then Success(v.found) else Walk(d, next, v.found)
  }

  /** A found data chunk lies inside the file. */
  lemma {:induction false} WalkInside(d: Bytes, pos: nat, found: Found)
    requires pos <= |d|
    requires found.pcm.Some? ==> found.pcm.value.start + found.pcm.value.len <= |d|
    ensures var r := Walk(d, pos, found);
            r.Success? && r.value.pcm.Some? ==> r.value.pcm.value.start + r.value.pcm.value.len <= |d|
    decreases |d| - pos
  {
    if pos + 8 <= |d| {
      var v := Visit(d, pos, found);
      if v.Success? {
        var next := pos + 8 + v.value.len + v.value.len % 2;
        if !v.value.stop && next <= |d| { WalkInside(d, next, v.value.found); }
      }
    }
  }

  // ---- samples -------------------------------------------------------------------------------------------------

  function ToInt16(x: nat): int { if x % 0x1_0000 < 0x8000 then x % 0x1_0000 else x % 0x1_0000 - 0x1_0000 }

  /** What the float patterns of a float file stand for, and how its means are stored. */
  datatype Floats = Floats(single: nat -> real, double: nat -> real, narrow: real -> real)

  predicate IntegerBits(bits: nat) { bits in {8, 16, 24, 32} }

  /** Full scale of `bits` bits. */
  function Half(bits: nat): (h: int)
    requires IntegerBits(bits)
    ensures h > 0
  {
    if bits == 8 then 0x80 else if bits == 16 then 0x8000 else if bits == 24 then 0x80_0000 else 0x8000_0000
  }

  /** The integer of `bits` bits at `at`. 24 bits are put into the top of a 32-bit word and shifted back down. */
  function Signed(d: Bytes, at: nat, bits: nat): int
    requires IntegerBits(bits) && at + bits / 8 <= |d|
  {
    if bits == 8 then At(d, at) - 128
    else if bits == 16 then ToInt16(Le16(d, at))
    else if bits == 24 then ToInt32(0x100 * Le24(d, at)) / 0x100
    else ToInt32(Le32(d, at))
  }

  function Sample(d: Bytes, at: nat, bits: nat, isFloat: bool, floats: Floats): real
    requires at + bits / 8 <= |d|
    requires if isFloat then bits in {32, 64} else IntegerBits(bits)
  {
    if isFloat then
      if bits == 32 then floats.single(Le32(d, at)) else floats.double(Le32(d, at) + 0x1_0000_0000 * Le32(d, at + 4))
    else Signed(d, at, bits) as real / Half(bits) as real
  }

  function Mul(a: nat, b: nat): nat { a * b }

  function Div(a: nat, b: nat): nat
    requires b > 0
  {
    a / b
  }

  datatype Layout = Layout(start: nat, channels: nat, width: nat, bits: nat, isFloat: bool)

  predicate Decodable(l: Layout) {
    && 1 <= l.channels <= 64 && l.width == l.bits / 8
    && if l.isFloat then l.bits in {32, 64} else IntegerBits(l.bits)
  }

  /** Frame `f`, channel `c` starts this far into the data. */
  function Offset(l: Layout, f: nat, c: nat): nat { Mul(f, Mul(l.width, l.channels)) + Mul(c, l.width) }

  predicate Holds(d: Bytes, l: Layout, frames: nat) { l.start + Mul(frames, Mul(l.width, l.channels)) <= |d| }

  lemma OffsetInside(d: Bytes, l: Layout, frames: nat, f: nat, c: nat)
    requires Holds(d, l, frames) && f < frames && c < l.channels
    ensures l.start + Offset(l, f, c) + l.width <= |d|
    ensures Offset(l, f, c) == Mul(Mul(f, l.channels) + c, l.width)
  {
    MulLe(f + 1, frames, l.width * l.channels);
    MulLe(c + 1, l.channels, l.width);
    assert (f + 1) * (l.width * l.channels) == f * (l.width * l.channels) + l.width * l.channels;
    assert (c + 1) * l.width == c * l.width + l.width;
    assert l.width * l.channels == l.channels * l.width;
    assert f * (l.channels * l.width) == (f * l.channels) * l.width;
    assert (f * l.channels + c) * l.width == (f * l.channels) * l.width + c * l.width;
  }

  function SampleAt(d: Bytes, l: Layout, frames: nat, floats: Floats, f: nat, c: nat): real
    requires Decodable(l) && Holds(d, l, frames) && f < frames && c < l.channels
  {
    OffsetInside(d, l, frames, f, c);
    Sample(d, l.start + Offset(l, f, c), l.bits, l.isFloat, floats)
  }

  /** The sum of the first `n` channels of a frame. */
  function FrameSum(d: Bytes, l: Layout, frames: nat, floats: Floats, f: nat, n: nat): real
    requires Decodable(l) && Holds(d, l, frames) && f < frames && n <= l.channels
  {
    if n == 0 then 0.0 else FrameSum(d, l, frames, floats, f, n - 1) + SampleAt(d, l, frames, floats, f, n - 1)
  }

  function Mean(d: Bytes, l: Layout, frames: nat, floats: Floats, f: nat): real
    requires Decodable(l) && Holds(d, l, frames) && f < frames
  {
    FrameSum(d, l, frames, floats, f, l.channels) / (l.channels as real)
  }

  /** The cast of a mean to the float that is stored. */
  function Kept(isFloat: bool, floats: Floats, mean: real): real {
    if isFloat then floats.narrow(mean) else F.Stored(mean)
  }

  function Mono(d: Bytes, l: Layout, frames: nat, floats: Floats): (s: seq<real>)
    requires Decodable(l) && Holds(d, l, frames)
    ensures |s| == frames
  {
    seq(frames, f requires 0 <= f < frames => Kept(l.isFloat, floats, Mean(d, l, frames, floats, f)))
  }

  /** `rate` is the int the field is cast to. */
  datatype Audio = Audio(rate: int, channels: nat, bits: nat, isFloat: bool, samples: seq<real>)

  /** The checks after the walk, in their order. */
  function Checked(fmt: Option<Format>, pcm: Option<Span>): Option<Error> {
    if fmt.None? then Some(NoFmt)
    else if pcm.None? then Some(NoData)
    else
      var f := fmt.value;
      var isFloat := f.tag == FLOAT;
      if f.channels < 1 || f.channels > 64 then Some(BadChannels)
      else if f.rate == 0 then Some(ZeroRate)
      else if f.tag != PCM && !isFloat then Some(BadEncoding)
      else if !(if isFloat then f.bits in {32, 64} else f.bits in {8, 16, 24, 32}) then Some(BadDepth)
      else if f.blockAlign != Mul(f.bits / 8, f.channels) then Some(BadAlign)
      else if Div(pcm.value.len, MulPositive(f.bits / 8, f.channels)) == 0 then Some(NoSamples)
      else None
  }

  function MulPositive(a: nat, b: nat): (p: nat)
    requires a > 0 && b > 0
    ensures p > 0 && p == Mul(a, b)
  {
    MulLe(1, a, b);
    Mul(a, b)
  }

  function LayoutOf(f: Format, pcm: Span): Layout {
    Layout(pcm.start, f.channels, f.bits / 8, f.bits, f.tag == FLOAT)
  }

  lemma FramesHeld(d: Bytes, f: Format, pcm: Span)
    requires Checked(Some(f), Some(pcm)).None? && pcm.start + pcm.len <= |d|
    ensures Decodable(LayoutOf(f, pcm)) && f.blockAlign == Mul(f.bits / 8, f.channels) > 0
    ensures Holds(d, LayoutOf(f, pcm), Div(pcm.len, f.blockAlign))
  {
    var align := MulPositive(f.bits / 8, f.channels);
    assert pcm.len == align * (pcm.len / align) + pcm.len % align;
    assert align * (pcm.len / align) == (pcm.len / align) * align;
  }

  function IsRiff(d: Bytes): bool { |d| >= 12 && d[..4] == RIFF && d[8..12] == WAVE }

  /** What the decoder makes of a byte string. */
  function Decoded(d: Bytes, floats: Floats): Result<Audio, Error> {
    if !IsRiff(d) then Failure(NotRiff)
    else
      match Walk(d, 12, Found(None, None))
      case Failure(e) => Failure(e)
      case Success(found) =>
        var problem := Checked(found.fmt, found.pcm);
        if problem.Some? then Failure(problem.value)
        else
          var f, pcm := found.fmt.value, found.pcm.value;
          WalkInside(d, 12, Found(None, None));
          FramesHeld(d, f, pcm);
          Success(Audio(ToInt32(f.rate), f.channels, f.bits, f.tag == FLOAT,
                        Mono(d, LayoutOf(f, pcm), Div(pcm.len, f.blockAlign), floats)))
  }

  // ---- the decoder's loops -------------------------------------------------------------------------------------

  method ReadSamples(d: Bytes, l: Layout, frames: nat, floats: Floats) returns (samples: seq<real>)
    requires Decodable(l) && Holds(d, l, frames)
    ensures samples == Mono(d, l, frames, floats)
  {
    hide Sample, Mul, Decodable, Holds, Kept;
    samples := [];
    ChannelsPositive(l);
    var f := 0;
    while f < frames
      invariant 0 <= f <= frames && samples == Mono(d, l, frames, floats)[..f]
    {
      var acc, c := 0.0, 0;
      while c < l.channels
        invariant 0 <= c <= l.channels && acc == FrameSum(d, l, frames, floats, f, c)
      {
        OffsetInside(d, l, frames, f, c);
        var v := SampleAt(d, l, frames, floats, f, c);
        acc := acc + v;
        c := c + 1;
      }
      samples := samples + [Kept(l.isFloat, floats, acc / (l.channels as real))];
      f := f + 1;
    }
  }

  lemma ChannelsPositive(l: Layout)
    requires Decodable(l)
    ensures l.channels >= 1
  {
  }

  /** Ends on every byte string, and reads only inside it. */
  method DecodeWav(d: Bytes, floats: Floats) returns (r: Result<Audio, Error>)
    ensures r == Decoded(d, floats)
  {
    hide Mul, Div, Mono, Holds, Decodable, Le32, Le16, ToInt32;
    if !IsRiff(d) {
      return Failure(NotRiff);
    }
    var found, pos := Found(None, None), 12;
    ghost var whole := Walk(d, 12, found);
    ghost var ended := false;
    while pos + 8 <= |d|
      invariant 12 <= pos <= |d|
      invariant whole == if ended then Success(found) else Walk(d, pos, found)
      decreases |d| - pos
    {
      var v := Visit(d, pos, found);
      if v.Failure? {
        return Failure(v.error);
      }
      found := v.value.found;
      ended := true;
      if v.value.stop {
        break;
      }
      var next := pos + 8 + v.value.len + v.value.len % 2;
      if next > |d| {
        break;
      }
      pos := next;
      ended := false;
    }
    assert whole == Success(found);
    var problem := Checked(found.fmt, found.pcm);
    if problem.Some? {
      return Failure(problem.value);
    }
    var f, pcm := found.fmt.value, found.pcm.value;
    WalkInside(d, 12, Found(None, None));
    FramesHeld(d, f, pcm);
    var samples := ReadSamples(d, LayoutOf(f, pcm), Div(pcm.len, f.blockAlign), floats);
    return Success(Audio(ToInt32(f.rate), f.channels, f.bits, f.tag == FLOAT, samples));
  }

  // ---- integer samples -----------------------------------------------------------------------------------------

  predicate Fits(s: int, bits: nat)
    requires IntegerBits(bits)
  {
    -Half(bits) <= s < Half(bits)
  }

  /** `n` bytes of `u`, low byte first. */
  function LittleEndian(u: nat, n: nat): (b: Bytes)
    ensures |b| == n
  {
    if n == 0 then [] else [u % 0x100] + LittleEndian(u / 0x100, n - 1)
  }

  /** A sample as WAVE stores it: offset by half for 8 bits, two's complement otherwise. */
  function SampleBytes(s: int, bits: nat): (b: Bytes)
    requires IntegerBits(bits) && Fits(s, bits)
    ensures |b| == bits / 8
  {
    if bits == 8 then LittleEndian(s + 128, 1)
    else LittleEndian(if s >= 0 then s else s + 2 * Half(bits), bits / 8)
  }

  function FromLittleEndian(b: Bytes): nat {
    if b == [] then 0 else At(b, 0) + 0x100 * FromLittleEndian(b[1..])
  }

  function Power256(n: nat): (p: nat)
    ensures p > 0
  {
    if n == 0 then 1 else 0x100 * Power256(n - 1)
  }

  lemma {:induction false} LittleEndianBack(u: nat, n: nat)
    requires u < Power256(n)
    ensures FromLittleEndian(LittleEndian(u, n)) == u
  {
    if n > 0 {
      LittleEndianBack(u / 0x100, n - 1);
      assert LittleEndian(u, n)[1..] == LittleEndian(u / 0x100, n - 1);
    }
  }

  lemma {:induction false} LeIsLittleEndian(d: Bytes, at: nat, n: nat)
    requires 1 <= n <= 4 && at + n <= |d|
    decreases n
    ensures n == 1 ==> FromLittleEndian(d[at..at + n]) == At(d, at)
    ensures n == 2 ==> FromLittleEndian(d[at..at + n]) == Le16(d, at)
    ensures n == 3 ==> FromLittleEndian(d[at..at + n]) == Le24(d, at)
    ensures n == 4 ==> FromLittleEndian(d[at..at + n]) == Le32(d, at)
  {
    assert d[at..at + n][1..] == d[at + 1..at + n];
    if n == 1 {
      assert d[at + 1..at + 1] == [];
    } else {
      LeIsLittleEndian(d, at + 1, n - 1);
    }
  }

  lemma Powers()
    ensures Power256(1) == 0x100 && Power256(2) == 0x1_0000 && Power256(3) == 0x100_0000 && Power256(4) == 0x1_0000_0000
  {
    assert Power256(0) == 1;
  }

  /** The unsigned word a sample is stored as. */
  function WordOf(s: int, bits: nat): (u: nat)
    requires IntegerBits(bits) && Fits(s, bits)
  {
    if bits == 8 then s + 128 else if s >= 0 then s else s + 2 * Half(bits)
  }

  lemma WordBack(d: Bytes, at: nat, s: int, bits: nat)
    requires IntegerBits(bits) && Fits(s, bits)
    requires at + bits / 8 <= |d| && d[at..at + bits / 8] == SampleBytes(s, bits)
    ensures bits == 8 ==> At(d, at) == WordOf(s, bits)
    ensures bits == 16 ==> Le16(d, at) == WordOf(s, bits)
    ensures bits == 24 ==> Le24(d, at) == WordOf(s, bits)
    ensures bits == 32 ==> Le32(d, at) == WordOf(s, bits)
  {
    hide FromLittleEndian, LittleEndian, Le16, Le24, Le32, Power256, At;
    Powers();
    LeIsLittleEndian(d, at, bits / 8);
    LittleEndianBack(WordOf(s, bits), bits / 8);
  }

  /** Every integer sample is read back, sign and all. */
  lemma SampleRoundTrip(d: Bytes, at: nat, s: int, bits: nat, floats: Floats)
    requires IntegerBits(bits) && Fits(s, bits) && Contains(d, at, SampleBytes(s, bits))
    ensures at + bits / 8 <= |d|
    ensures Sample(d, at, bits, false, floats) == s as real / (Half(bits) as real)
  {
    hide SampleBytes, Le16, Le24, Le32, At;
    WordBack(d, at, s, bits);
    Signs(s, bits);
    assert Signed(d, at, bits) == s;
  }

  lemma Signs(s: int, bits: nat)
    requires IntegerBits(bits) && Fits(s, bits)
    ensures bits == 16 ==> ToInt16(WordOf(s, bits)) == s
    ensures bits == 24 ==> ToInt32(0x100 * WordOf(s, bits)) / 0x100 == s
    ensures bits == 32 ==> ToInt32(WordOf(s, bits)) == s
  {
  }

  /** Integer samples stay in [-1, 1), one step of their width below 1, whatever the bytes. */
  lemma PcmInRange(d: Bytes, at: nat, bits: nat, floats: Floats)
    requires IntegerBits(bits) && at + bits / 8 <= |d|
    ensures Fits(Signed(d, at, bits), bits)
    ensures -1.0 <= Sample(d, at, bits, false, floats) <= 1.0 - 1.0 / (Half(bits) as real)
  {
    hide Half;
    SignedFits(d, at, bits);
    StepsInRange(Signed(d, at, bits), Half(bits));
  }

  lemma SignedFits(d: Bytes, at: nat, bits: nat)
    requires IntegerBits(bits) && at + bits / 8 <= |d|
    ensures Fits(Signed(d, at, bits), bits)
  {
    hide Le16, Le24, Le32;
  }

  lemma StepsInRange(s: int, h: int)
    requires h > 0 && -h <= s < h
    ensures -1.0 <= s as real / h as real <= 1.0 - 1.0 / (h as real)
  {
    MeanAgainst(s as real, h as real, 1.0 - 1.0 / (h as real));
    MeanAgainst(-(s as real), h as real, 1.0);
    NegatedMean(s as real, h as real);
    assert (1.0 - 1.0 / (h as real)) * h as real == h as real - 1.0;
  }

  // ---- what is stored --------------------------------------------------------------------------------------

  /** The sum of the first `n` channels of a frame, in steps of the sample width. */
  function FrameTotal(d: Bytes, l: Layout, frames: nat, f: nat, n: nat): int
    requires Decodable(l) && !l.isFloat && Holds(d, l, frames) && f < frames && n <= l.channels
  {
    if n == 0 then 0
    else
      OffsetInside(d, l, frames, f, n - 1);
      FrameTotal(d, l, frames, f, n - 1) + Signed(d, l.start + Offset(l, f, n - 1), l.bits)
  }

  lemma AddOver(a: int, b: int, h: int)
    requires h > 0
    ensures a as real / h as real + b as real / h as real == (a + b) as real / h as real
  {
  }

  lemma {:induction false} SumIsTotal(d: Bytes, l: Layout, frames: nat, floats: Floats, f: nat, n: nat)
    requires Decodable(l) && Holds(d, l, frames) && f < frames && !l.isFloat && n <= l.channels
    ensures FrameSum(d, l, frames, floats, f, n) == FrameTotal(d, l, frames, f, n) as real / Half(l.bits) as real
  {
    hide Signed, Mul, Offset, Half;
    if n > 0 {
      SumIsTotal(d, l, frames, floats, f, n - 1);
      OffsetInside(d, l, frames, f, n - 1);
      AddOver(FrameTotal(d, l, frames, f, n - 1), Signed(d, l.start + Offset(l, f, n - 1), l.bits), Half(l.bits));
    } else {
      AddOver(0, 0, Half(l.bits));
    }
  }

  /** The double the channels of a frame are added up in never rounds. */
  lemma SumsAreExact(d: Bytes, l: Layout, frames: nat, floats: Floats, f: nat, n: nat)
    requires Decodable(l) && Holds(d, l, frames) && f < frames && !l.isFloat && n <= l.channels
    ensures var sum := FrameSum(d, l, frames, floats, f, n); F.Float64(sum) == sum && -64.0 <= sum <= 64.0
  {
    hide FrameSum, FrameTotal, F.RoundTo, Half;
    SumIsTotal(d, l, frames, floats, f, n);
    SumInRange(d, l, frames, floats, f, n);
    StepsAreExact(FrameTotal(d, l, frames, f, n), l.bits);
  }

  lemma StepsAreExact(total: int, bits: nat)
    requires IntegerBits(bits)
    ensures F.Float64(total as real / Half(bits) as real) == total as real / Half(bits) as real
  {
    hide F.RoundTo;
    StepOfWidth(total, bits);
    F.ShortSumsExact(total, bits - 1, 53, -1022);
  }

  lemma StepOfWidth(total: int, bits: nat)
    requires IntegerBits(bits)
    ensures F.FakeQuant.Times(total as real, F.Pow(0 - (bits - 1))) == total as real / Half(bits) as real
  {
    hide F.Pow;
    F.Powers();
  }

  /** Every sum of n channels is at least -n, and n steps below n. */
  lemma {:induction false} SumInRange(d: Bytes, l: Layout, frames: nat, floats: Floats, f: nat, n: nat)
    requires Decodable(l) && Holds(d, l, frames) && f < frames && !l.isFloat && n <= l.channels
    ensures -(n as real) <= FrameSum(d, l, frames, floats, f, n) <= n as real
    ensures l.bits <= 24 ==> FrameSum(d, l, frames, floats, f, n) <= n as real * (8388607.0 / 8388608.0)
  {
    hide Sample, Signed, Mul;
    if n > 0 {
      SumInRange(d, l, frames, floats, f, n - 1);
      OffsetInside(d, l, frames, f, n - 1);
      PcmInRange(d, l.start + Offset(l, f, n - 1), l.bits, floats);
    }
  }

  lemma MeanAgainst(sum: real, n: real, t: real)
    requires n > 0.0
    ensures sum / n <= t <==> sum <= t * n
    ensures sum / n < t <==> sum < t * n
  {
    var m := sum / n;
    assert sum == m * n;
    assert m < t ==> (t - m) * n > 0.0;
    assert m > t ==> (m - t) * n > 0.0;
  }

  /** Means lie in [-1, 1], and none is so close below the limit that the double quotient could reach it. */
  lemma MeanHasGap(d: Bytes, l: Layout, frames: nat, floats: Floats, f: nat)
    requires Decodable(l) && Holds(d, l, frames) && f < frames && !l.isFloat
    ensures var m := Mean(d, l, frames, floats, f);
            && -1.0 <= m <= 1.0
            && (m < F.LIMIT ==> m <= F.LIMIT - 1.0 / 1099511627776.0)
            && (l.bits <= 24 ==> m < F.LIMIT)
  {
    hide FrameSum, FrameTotal, Holds;
    var n, sum := l.channels as real, FrameSum(d, l, frames, floats, f, l.channels);
    SumInRange(d, l, frames, floats, f, l.channels);
    SumIsTotal(d, l, frames, floats, f, l.channels);
    MeanAgainst(-sum, n, 1.0);
    MeanAgainst(sum, n, 1.0);
    MeanAgainst(sum, n, F.LIMIT);
    MeanAgainst(sum, n, F.LIMIT - 1.0 / 1099511627776.0);
    NegatedMean(sum, n);
    if l.bits == 32 && sum < F.LIMIT * n {
      WholeSteps(FrameTotal(d, l, frames, f, l.channels), l.channels);
    }
  }

  lemma NegatedMean(sum: real, n: real)
    requires n > 0.0
    ensures (-sum) / n == -(sum / n)
  {
  }

  /** Below the limit a total of 32-bit samples is at least one step below it. */
  lemma WholeSteps(total: int, n: nat)
    requires 1 <= n <= 64 && total as real / 2147483648.0 < F.LIMIT * n as real
    ensures total as real / 2147483648.0 <= (F.LIMIT - 1.0 / 1099511627776.0) * n as real
  {
    assert F.LIMIT * 2147483648.0 == 2147483584.0;
    assert total < 2147483584 * n;
    assert total <= 2147483584 * n - 1;
  }

  /** The stored sample of an integer PCM frame is in [-1, 1] and stays below 1 exactly when the mean is below 1 - 2^-25:
      the cast to float rounds a 32-bit mean from there on up to 1. */
  lemma StoredInRangeExactly(d: Bytes, l: Layout, frames: nat, floats: Floats, f: nat)
    requires Decodable(l) && Holds(d, l, frames) && f < frames && !l.isFloat
    ensures -1.0 <= Mono(d, l, frames, floats)[f] <= 1.0
    ensures Mono(d, l, frames, floats)[f] < 1.0 <==> Mean(d, l, frames, floats, f) < 1.0 - 1.0 / 33554432.0
  {
    hide F.Stored, Mean;
    MeanHasGap(d, l, frames, floats, f);
    F.StoredRange(Mean(d, l, frames, floats, f));
  }

  /** So 8, 16 and 24-bit files always stay in [-1, 1), for any bytes and channels. */
  lemma ShortSamplesInRange(d: Bytes, l: Layout, frames: nat, floats: Floats, f: nat)
    requires Decodable(l) && Holds(d, l, frames) && f < frames && !l.isFloat && l.bits <= 24
    ensures -1.0 <= Mono(d, l, frames, floats)[f] < 1.0
  {
    hide Mono, Mean;
    MeanHasGap(d, l, frames, floats, f);
    StoredInRangeExactly(d, l, frames, floats, f);
  }

  /** And a 32-bit file of one channel exactly for samples below 0x7FFF_FFC0. */
  lemma LongSampleInRangeExactly(d: Bytes, l: Layout, frames: nat, floats: Floats, f: nat)
    requires Decodable(l) && Holds(d, l, frames) && f < frames && !l.isFloat && l.bits == 32 && l.channels == 1
    ensures l.start + Offset(l, f, 0) + 4 <= |d|
    ensures Mono(d, l, frames, floats)[f] < 1.0 <==> Signed(d, l.start + Offset(l, f, 0), 32) < 0x7FFF_FFC0
  {
    hide Mono, Signed, Mul;
    OffsetInside(d, l, frames, f, 0);
    StoredInRangeExactly(d, l, frames, floats, f);
    assert FrameSum(d, l, frames, floats, f, 0) == 0.0;
    assert Mean(d, l, frames, floats, f) == Signed(d, l.start + Offset(l, f, 0), 32) as real / 2147483648.0;
  }

  lemma FullScaleSample()
    ensures Signed([0xFF, 0xFF, 0xFF, 0x7F], 0, 32) == 0x7FFF_FFFF
  {
    var d: Bytes := [0xFF, 0xFF, 0xFF, 0x7F];
    assert At(d, 0) == 0xFF && At(d, 1) == 0xFF && At(d, 2) == 0xFF && At(d, 3) == 0x7F;
    assert Le32(d, 0) == 0x7FFF_FFFF;
  }

  /** Full scale of a 32-bit file is stored as 1. */
  lemma FullScaleIsOne(floats: Floats)
    ensures var d: Bytes, l := [0xFF, 0xFF, 0xFF, 0x7F], Layout(0, 1, 4, 32, false);
            Decodable(l) && Holds(d, l, 1) && Mono(d, l, 1, floats) == [1.0]
  {
    hide F.Stored, Signed, Mono, Mean, Offset;
    var d: Bytes, l := [0xFF, 0xFF, 0xFF, 0x7F], Layout(0, 1, 4, 32, false);
    FullScaleSample();
    FirstOffset(l);
    LongSampleInRangeExactly(d, l, 1, floats, 0);
    StoredInRangeExactly(d, l, 1, floats, 0);
    var m := Mono(d, l, 1, floats);
    assert |m| == 1 && m[0] == 1.0;
  }

  lemma FirstOffset(l: Layout)
    ensures Offset(l, 0, 0) == 0
  {
  }

  // ---- well-formed files ---------------------------------------------------------------------------------------

  datatype Chunk = Chunk(id: Bytes, body: Bytes)

  /** A chunk the decoder has no use for. */
  predicate Unknown(c: Chunk) { |c.id| == 4 && c.id != FMT && c.id != DATA && |c.body| < 0x1_0000_0000 }

  function Header(id: Bytes, len: nat): (h: Bytes)
    ensures |h| == |id| + 4
  {
    id + LittleEndian(len, 4)
  }

  /** A chunk as written: header, body, and a pad byte after an odd body. */
  function Encode(c: Chunk): Bytes {
    Header(c.id, |c.body|) + c.body + if |c.body| % 2 == 1 then [0] else []
  }

  function EncodeAll(cs: seq<Chunk>): Bytes {
    if cs == [] then [] else Encode(cs[0]) + EncodeAll(cs[1..])
  }

  /** `part` is found at `pos`. */
  predicate Contains(d: Bytes, pos: nat, part: Bytes) { pos + |part| <= |d| && d[pos..pos + |part|] == part }

  lemma ContainsFits(d: Bytes, pos: nat, part: Bytes)
    requires Contains(d, pos, part)
    ensures pos + |part| <= |d|
  {
  }

  lemma ContainsParts(d: Bytes, pos: nat, a: Bytes, b: Bytes)
    requires Contains(d, pos, a + b)
    ensures Contains(d, pos, a) && Contains(d, pos + |a|, b)
  {
    assert a == (a + b)[..|a|] && b == (a + b)[|a|..];
  }

  lemma HeaderRead(d: Bytes, pos: nat, id: Bytes, len: nat)
    requires |id| == 4 && len < 0x1_0000_0000 && Contains(d, pos, Header(id, len))
    ensures pos + 8 <= |d| && Id(d, pos) == id && Le32(d, pos + 4) == len
  {
    hide LittleEndian, FromLittleEndian, Le32;
    ContainsParts(d, pos, id, LittleEndian(len, 4));
    Powers();
    LittleEndianBack(len, 4);
    LeIsLittleEndian(d, pos + 4, 4);
  }

  /** The walk steps over an unknown chunk, pad byte and all. */
  lemma SkipsOne(d: Bytes, pos: nat, found: Found, c: Chunk)
    requires Unknown(c) && Contains(d, pos, Encode(c))
    ensures Walk(d, pos, found) == Walk(d, pos + |Encode(c)|, found)
  {
    hide LittleEndian, Le32;
    var pad: Bytes := if |c.body| % 2 == 1 then [0] else [];
    assert Encode(c) == Header(c.id, |c.body|) + (c.body + pad);
    ContainsParts(d, pos, Header(c.id, |c.body|), c.body + pad);
    HeaderRead(d, pos, c.id, |c.body|);
  }

  lemma {:induction false} SkipsAll(d: Bytes, pos: nat, found: Found, cs: seq<Chunk>)
    requires (forall c :: c in cs ==> Unknown(c)) && Contains(d, pos, EncodeAll(cs))
    ensures Walk(d, pos, found) == Walk(d, pos + |EncodeAll(cs)|, found)
    decreases |cs|
  {
    hide Encode, Walk;
    if cs != [] {
      ContainsParts(d, pos, Encode(cs[0]), EncodeAll(cs[1..]));
      SkipsOne(d, pos, found, cs[0]);
      SkipsAll(d, pos + |Encode(cs[0])|, found, cs[1..]);
    }
  }

  lemma FormatIsLocal(d: Bytes, at: nat, body: Bytes)
    requires Contains(d, at, body)
    ensures ReadFormat(d, at, |body|) == ReadFormat(body, 0, |body|)
  {
    assert forall i :: 0 <= i < |body| ==> d[at..at + |body|][i] == body[i];
    if |body| >= 16 {
      LocalBytes(d, at, body, 0);
      LocalBytes(d, at, body, 2);
      LocalBytes(d, at, body, 4);
      LocalBytes(d, at, body, 12);
      LocalBytes(d, at, body, 14);
      if |body| >= 26 { LocalBytes(d, at, body, 24); }
    }
  }

  lemma LocalBytes(d: Bytes, at: nat, body: Bytes, i: nat)
    requires Contains(d, at, body) && i + 2 <= |body|
    ensures Le16(d, at + i) == Le16(body, i) && (i + 4 <= |body| ==> Le32(d, at + i) == Le32(body, i))
  {
    var part := d[at..at + |body|];
    assert part[i] == d[at + i] && part[i + 1] == d[at + i + 1];
    if i + 4 <= |body| { assert part[i + 2] == d[at + i + 2] && part[i + 3] == d[at + i + 3]; }
  }

  lemma {:induction false} BytesBack(b: Bytes)
    ensures FromLittleEndian(b) < Power256(|b|) && LittleEndian(FromLittleEndian(b), |b|) == b
  {
    if b != [] {
      BytesBack(b[1..]);
      var v := FromLittleEndian(b);
      assert v % 0x100 == b[0] && v / 0x100 == FromLittleEndian(b[1..]);
      assert b == [b[0]] + b[1..];
    }
  }

  /** A two-byte and a four-byte field read as the number they are the bytes of, and as no other. */
  lemma FieldIs(b: Bytes, at: nat, v: nat)
    ensures at + 2 <= |b| ==> (Le16(b, at) == v <==> v < 0x1_0000 && b[at..at + 2] == LittleEndian(v, 2))
    ensures at + 4 <= |b| ==> (Le32(b, at) == v <==> v < 0x1_0000_0000 && b[at..at + 4] == LittleEndian(v, 4))
  {
    hide LittleEndian, FromLittleEndian, Le16, Le32, Power256;
    Powers();
    if at + 2 <= |b| {
      LeIsLittleEndian(b, at, 2);
      BytesBack(b[at..at + 2]);
      if v < 0x1_0000 { LittleEndianBack(v, 2); }
    }
    if at + 4 <= |b| {
      LeIsLittleEndian(b, at, 4);
      BytesBack(b[at..at + 4]);
      if v < 0x1_0000_0000 { LittleEndianBack(v, 4); }
    }
  }

  /** A fmt body as it is laid out: tag, channels, rate, byte rate, block alignment, bits; behind the extensible tag FE FF the
      real tag starts the sub-format at byte 24. */
  ghost predicate Describes(b: Bytes, f: Format) {
    && |b| >= 16 && Field2(b, 2, f.channels) && Field4(b, 4, f.rate) && Field2(b, 12, f.blockAlign) && Field2(b, 14, f.bits)
    && if b[..2] == [0xFE, 0xFF] then |b| >= 26 && Field2(b, 24, f.tag) else Field2(b, 0, f.tag)
  }

  predicate Field2(b: Bytes, at: nat, v: nat) { at + 2 <= |b| && v < 0x1_0000 && b[at..at + 2] == LittleEndian(v, 2) }

  predicate Field4(b: Bytes, at: nat, v: nat) { at + 4 <= |b| && v < 0x1_0000_0000 && b[at..at + 4] == LittleEndian(v, 4) }

  /** A fmt body is read as what it describes, and refused exactly when it is cut short. */
  lemma FormatReadExactly(b: Bytes, f: Format)
    ensures ReadFormat(b, 0, |b|) == Success(f) <==> Describes(b, f)
    ensures ReadFormat(b, 0, |b|) == Failure(TruncatedFmt) <==> |b| < 16
    ensures ReadFormat(b, 0, |b|) == Failure(TruncatedExtensible) <==> 16 <= |b| < 26 && b[..2] == [0xFE, 0xFF]
  {
    hide LittleEndian, Le32;
    if |b| >= 16 {
      assert b[..2] == b[0..2];
      Extensible(b);
      FieldIs(b, 0, f.tag);
      FieldIs(b, 2, f.channels);
      FieldIs(b, 4, f.rate);
      FieldIs(b, 12, f.blockAlign);
      FieldIs(b, 14, f.bits);
      FieldIs(b, 24, f.tag);
      hide Le16;
    }
  }

  lemma Extensible(b: Bytes)
    requires |b| >= 2
    ensures Le16(b, 0) == EXTENSIBLE <==> b[..2] == [0xFE, 0xFF]
  {
    assert b[..2] == [b[0], b[1]];
  }

  /** A fmt chunk whose length runs past the file is refused. */
  lemma FormatPastEnd(d: Bytes, body: nat, len: nat)
    requires body <= |d| < body + len
    ensures ReadFormat(d, body, len) == Failure(TruncatedFmt)
  {
  }

  lemma ReadsFormat(d: Bytes, pos: nat, found: Found, body: Bytes, f: Format)
    requires |body| < 0x1_0000_0000 && Contains(d, pos, Encode(Chunk(FMT, body)))
    requires Describes(body, f)
    ensures Walk(d, pos, found) == Walk(d, pos + |Encode(Chunk(FMT, body))|, found.(fmt := Some(f)))
  {
    hide LittleEndian, Le32, ReadFormat, Describes;
    FormatReadExactly(body, f);
    var pad: Bytes := if |body| % 2 == 1 then [0] else [];
    assert Encode(Chunk(FMT, body)) == Header(FMT, |body|) + (body + pad);
    ContainsParts(d, pos, Header(FMT, |body|), body + pad);
    HeaderRead(d, pos, FMT, |body|);
    ContainsParts(d, pos + 8, body, pad);
    FormatIsLocal(d, pos + 8, body);
  }

  /** Data after fmt ends the walk with its length field's bytes, or with what is left of the file if that is less. */
  lemma TakesData(d: Bytes, pos: nat, found: Found, len: nat)
    requires found.fmt.Some? && len < 0x1_0000_0000 && Contains(d, pos, Header(DATA, len))
    ensures pos + 8 <= |d|
    ensures Walk(d, pos, found) == Success(found.(pcm := Some(Span(pos + 8, Min(len, |d| - pos - 8)))))
  {
    hide LittleEndian, Le32;
    HeaderRead(d, pos, DATA, len);
    assert DATA[0] != FMT[0];
  }

  /** What a found format and data must be, exactly. */
  lemma AcceptsExactly(fmt: Option<Format>, pcm: Option<Span>)
    ensures Checked(fmt, pcm).None? <==>
              && fmt.Some? && pcm.Some?
              && 1 <= fmt.value.channels <= 64 && fmt.value.rate != 0
              && ((fmt.value.tag == 1 && fmt.value.bits in {8, 16, 24, 32}) || (fmt.value.tag == 3 && fmt.value.bits in {32, 64}))
              && fmt.value.blockAlign == (fmt.value.bits / 8) * fmt.value.channels
              && pcm.value.len >= fmt.value.blockAlign
  {
    if fmt.Some? && pcm.Some? {
      var f := fmt.value;
      var align := (f.bits / 8) * f.channels;
      if f.bits / 8 > 0 && f.channels > 0 {
        MulLe(1, f.bits / 8, f.channels);
        WholeFrame(pcm.value.len, align);
      }
    }
  }

  lemma WholeFrame(len: nat, align: nat)
    requires align > 0
    ensures len / align == 0 <==> len < align
  {
    if len < align { DivModOf(len, align, 0, len); }
  }

  /** A file with one thing wrong is told that thing. */
  lemma OneDefect(f: Format, pcm: Span, n: nat)
    requires Checked(Some(f), Some(pcm)).None?
    ensures Checked(None, Some(pcm)) == Some(NoFmt) && Checked(Some(f), None) == Some(NoData)
    ensures !(1 <= n <= 64) ==> Checked(Some(f.(channels := n)), Some(pcm)) == Some(BadChannels)
    ensures Checked(Some(f.(rate := 0)), Some(pcm)) == Some(ZeroRate)
    ensures n !in {1, 3} ==> Checked(Some(f.(tag := n)), Some(pcm)) == Some(BadEncoding)
    ensures n !in {8, 16, 24, 32, 64} ==> Checked(Some(f.(bits := n)), Some(pcm)) == Some(BadDepth)
    ensures n != f.blockAlign ==> Checked(Some(f.(blockAlign := n)), Some(pcm)) == Some(BadAlign)
    ensures n < f.blockAlign ==> Checked(Some(f), Some(pcm.(len := n))) == Some(NoSamples)
  {
    hide Mul;
    WholeFrame(n, MulPositive(f.bits / 8, f.channels));
  }

  /** The names the walk looks for, in letters. */
  lemma NamesSpelled(i: nat)
    requires i < 4
    ensures RIFF[i] == "RIFF"[i] as int && WAVE[i] == "WAVE"[i] as int && FMT[i] == "fmt "[i] as int && DATA[i] == "data"[i] as int
  {
  }

  /** Everything else is no RIFF file. */
  lemma NotRiffExactly(d: Bytes, floats: Floats)
    ensures Decoded(d, floats) == Failure(NotRiff) <==>
              !(|d| >= 12 && d[..4] == [0x52, 0x49, 0x46, 0x46] && d[8..12] == [0x57, 0x41, 0x56, 0x45])
  {
    hide Checked, Mono, Decodable, Holds, Div, Mul, ToInt32;
    if IsRiff(d) { WalkErrors(d, 12, Found(None, None)); CheckErrors(d); }
  }

  lemma {:induction false} WalkErrors(d: Bytes, pos: nat, found: Found)
    requires pos <= |d|
    ensures Walk(d, pos, found).Failure? ==> Walk(d, pos, found).error in {TruncatedFmt, TruncatedExtensible}
    decreases |d| - pos
  {
    if pos + 8 <= |d| {
      var v := Visit(d, pos, found);
      if v.Success? {
        var next := pos + 8 + v.value.len + v.value.len % 2;
        if !v.value.stop && next <= |d| { WalkErrors(d, next, v.value.found); }
      }
    }
  }

  lemma CheckErrors(d: Bytes)
    ensures forall fmt, pcm :: Checked(fmt, pcm) != Some(NotRiff)
  {
    hide Div, Mul;
  }

  /** The walk ends where no chunk header fits any more. */
  lemma WalkEnds(d: Bytes, pos: nat, found: Found)
    requires pos <= |d| < pos + 8
    ensures Walk(d, pos, found) == Success(found)
  {
  }

  /** Data before fmt is noted and stepped over. */
  lemma NotesData(d: Bytes, pos: nat, found: Found, body: Bytes)
    requires found.fmt.None? && |body| < 0x1_0000_0000 && Contains(d, pos, Encode(Chunk(DATA, body)))
    ensures Walk(d, pos, found)
            == Walk(d, pos + |Encode(Chunk(DATA, body))|, found.(pcm := Some(Span(pos + 8, |body|))))
  {
    hide LittleEndian, Le32;
    var pad: Bytes := if |body| % 2 == 1 then [0] else [];
    assert Encode(Chunk(DATA, body)) == Header(DATA, |body|) + (body + pad);
    ContainsParts(d, pos, Header(DATA, |body|), body + pad);
    HeaderRead(d, pos, DATA, |body|);
    ContainsFits(d, pos, Encode(Chunk(DATA, body)));
    assert DATA[0] != FMT[0];
  }

  /** So a file with its data in front of its format is read as well, with unknown chunks anywhere and up to seven stray
      bytes at the end. */
  lemma FindsDataFirst(d: Bytes, pos: nat, pre: seq<Chunk>, audio: Bytes, mid: seq<Chunk>, fmtBody: Bytes, post: seq<Chunk>,
                       rest: Bytes, f: Format)
    requires (forall c :: c in pre ==> Unknown(c)) && (forall c :: c in mid ==> Unknown(c)) && (forall c :: c in post ==> Unknown(c))
    requires |audio| < 0x1_0000_0000 && |fmtBody| < 0x1_0000_0000 && Describes(fmtBody, f) && |rest| < 8
    requires pos <= |d| && d[pos..] == EncodeAll(pre) + (Encode(Chunk(DATA, audio)) + (EncodeAll(mid)
                                       + (Encode(Chunk(FMT, fmtBody)) + (EncodeAll(post) + rest))))
    ensures Contains(d, pos + |EncodeAll(pre)| + 8, audio)
    ensures Walk(d, pos, Found(None, None))
            == Success(Found(Some(f), Some(Span(pos + |EncodeAll(pre)| + 8, |audio|))))
  {
    hide Walk, Encode, EncodeAll, Describes, Contains, Unknown;
    TailParts(d, pos, EncodeAll(pre), Encode(Chunk(DATA, audio))
                                      + (EncodeAll(mid) + (Encode(Chunk(FMT, fmtBody)) + (EncodeAll(post) + rest))));
    SkipsAll(d, pos, Found(None, None), pre);
    DataThenFormat(d, pos + |EncodeAll(pre)|, audio, mid, fmtBody, post, rest, f);
  }

  lemma TailParts(d: Bytes, pos: nat, a: Bytes, b: Bytes)
    requires pos <= |d| && d[pos..] == a + b
    ensures Contains(d, pos, a) && Contains(d, pos + |a|, b) && pos + |a| + |b| == |d|
  {
    ContainsRest(d, pos);
    ContainsParts(d, pos, a, b);
  }

  lemma DataThenFormat(d: Bytes, pos: nat, audio: Bytes, mid: seq<Chunk>, fmtBody: Bytes, post: seq<Chunk>, rest: Bytes,
                       f: Format)
    requires (forall c :: c in mid ==> Unknown(c)) && (forall c :: c in post ==> Unknown(c))
    requires |audio| < 0x1_0000_0000 && |fmtBody| < 0x1_0000_0000 && Describes(fmtBody, f) && |rest| < 8
    requires var all := Encode(Chunk(DATA, audio))
                        + (EncodeAll(mid) + (Encode(Chunk(FMT, fmtBody)) + (EncodeAll(post) + rest)));
             Contains(d, pos, all) && pos + |all| == |d|
    ensures Contains(d, pos + 8, audio)
    ensures Walk(d, pos, Found(None, None)) == Success(Found(Some(f), Some(Span(pos + 8, |audio|))))
  {
    hide Walk, Encode, EncodeAll, Describes, Contains, Unknown;
    var data := Encode(Chunk(DATA, audio));
    ContainsParts(d, pos, data, EncodeAll(mid) + (Encode(Chunk(FMT, fmtBody)) + (EncodeAll(post) + rest)));
    NotesData(d, pos, Found(None, None), audio);
    ChunkBody(d, pos, Chunk(DATA, audio));
    FindsFormatLast(d, pos + |data|, Found(None, Some(Span(pos + 8, |audio|))), mid, fmtBody, post, rest, f);
  }

  lemma FindsFormatLast(d: Bytes, pos: nat, found: Found, mid: seq<Chunk>, fmtBody: Bytes, post: seq<Chunk>, rest: Bytes,
                        f: Format)
    requires (forall c :: c in mid ==> Unknown(c)) && (forall c :: c in post ==> Unknown(c))
    requires |fmtBody| < 0x1_0000_0000 && Describes(fmtBody, f) && |rest| < 8
    requires var behind := EncodeAll(mid) + (Encode(Chunk(FMT, fmtBody)) + (EncodeAll(post) + rest));
             Contains(d, pos, behind) && pos + |behind| == |d|
    ensures Walk(d, pos, found) == Success(found.(fmt := Some(f)))
  {
    hide Walk, Encode, EncodeAll, Describes, Contains, Unknown;
    var fmt := Encode(Chunk(FMT, fmtBody));
    ContainsParts(d, pos, EncodeAll(mid), fmt + (EncodeAll(post) + rest));
    SkipsAll(d, pos, found, mid);
    var p3 := pos + |EncodeAll(mid)|;
    ContainsParts(d, p3, fmt, EncodeAll(post) + rest);
    ReadsFormat(d, p3, found, fmtBody, f);
    var p4 := p3 + |fmt|;
    ContainsParts(d, p4, EncodeAll(post), rest);
    SkipsAll(d, p4, found.(fmt := Some(f)), post);
    WalkEnds(d, p4 + |EncodeAll(post)|, found.(fmt := Some(f)));
  }

  lemma ContainsRest(d: Bytes, pos: nat)
    requires pos <= |d|
    ensures Contains(d, pos, d[pos..])
  {
  }

  lemma ChunkBody(d: Bytes, pos: nat, c: Chunk)
    requires |c.id| == 4 && Contains(d, pos, Encode(c))
    ensures Contains(d, pos + 8, c.body)
  {
    var pad: Bytes := if |c.body| % 2 == 1 then [0] else [];
    assert Encode(c) == Header(c.id, |c.body|) + (c.body + pad);
    ContainsParts(d, pos, Header(c.id, |c.body|), c.body + pad);
    ContainsParts(d, pos + 8, c.body, pad);
  }

  /** Everything up to the samples: unknown chunks, fmt, unknown chunks, and the data header. */
  function Preamble(size: Bytes, pre: seq<Chunk>, fmtBody: Bytes, mid: seq<Chunk>): Bytes {
    RIFF + size + WAVE + (EncodeAll(pre) + (Encode(Chunk(FMT, fmtBody)) + EncodeAll(mid)))
  }

  ghost predicate WellFormed(size: Bytes, pre: seq<Chunk>, fmtBody: Bytes, mid: seq<Chunk>, len: nat, f: Format) {
    && |size| == 4 && |fmtBody| < 0x1_0000_0000 && len < 0x1_0000_0000
    && (forall c :: c in pre ==> Unknown(c)) && (forall c :: c in mid ==> Unknown(c))
    && Describes(fmtBody, f)
  }

  /** The walk of a well-formed file finds its format and its data. */
  lemma FindsData(size: Bytes, pre: seq<Chunk>, fmtBody: Bytes, mid: seq<Chunk>, len: nat, rest: Bytes, f: Format)
    requires WellFormed(size, pre, fmtBody, mid, len, f)
    ensures var head := Preamble(size, pre, fmtBody, mid);
            var d := head + (Header(DATA, len) + rest);
            && IsRiff(d)
            && Walk(d, 12, Found(None, None)) == Success(Found(Some(f), Some(Span(|head| + 8, Min(len, |rest|)))))
  {
    hide Walk, Encode, EncodeAll, ReadFormat, Describes, Header;
    var head := Preamble(size, pre, fmtBody, mid);
    var tail := Header(DATA, len) + rest;
    var d := head + tail;
    var fmt := Encode(Chunk(FMT, fmtBody));
    var start := RIFF + size + WAVE;
    assert start[..4] == RIFF && start[8..12] == WAVE && |start| == 12;
    assert d == start + (EncodeAll(pre) + (fmt + (EncodeAll(mid) + tail)));
    assert d[..4] == start[..4] && d[8..12] == start[8..12];
    assert d[12..] == EncodeAll(pre) + (fmt + (EncodeAll(mid) + tail));
    WalksChunks(d, 12, pre, fmtBody, mid, len, rest, f);
  }

  lemma WalksChunks(d: Bytes, pos: nat, pre: seq<Chunk>, fmtBody: Bytes, mid: seq<Chunk>, len: nat, rest: Bytes, f: Format)
    requires WellFormed([0, 0, 0, 0], pre, fmtBody, mid, len, f)
    requires Contains(d, pos, EncodeAll(pre) + (Encode(Chunk(FMT, fmtBody)) + (EncodeAll(mid) + (Header(DATA, len) + rest))))
    ensures var at := pos + |EncodeAll(pre)| + |Encode(Chunk(FMT, fmtBody))| + |EncodeAll(mid)| + 8;
            at <= |d|
            && Walk(d, pos, Found(None, None)) == Success(Found(Some(f), Some(Span(at, Min(len, |d| - at)))))
  {
    hide Walk, Encode, EncodeAll, ReadFormat, Describes, Header, Contains;
    var fmt, tail := Encode(Chunk(FMT, fmtBody)), Header(DATA, len) + rest;
    ContainsParts(d, pos, EncodeAll(pre), fmt + (EncodeAll(mid) + tail));
    SkipsAll(d, pos, Found(None, None), pre);
    var p1 := pos + |EncodeAll(pre)|;
    ContainsParts(d, p1, fmt, EncodeAll(mid) + tail);
    ReadsFormat(d, p1, Found(None, None), fmtBody, f);
    var p2 := p1 + |fmt|;
    ContainsParts(d, p2, EncodeAll(mid), tail);
    SkipsAll(d, p2, Found(Some(f), None), mid);
    var p3 := p2 + |EncodeAll(mid)|;
    ContainsParts(d, p3, Header(DATA, len), rest);
    TakesData(d, p3, Found(Some(f), None), len);
  }

  function EncodeSamples(s: seq<int>, bits: nat): (b: Bytes)
    requires IntegerBits(bits) && forall i :: 0 <= i < |s| ==> Fits(s[i], bits)
    ensures |b| == Mul(|s|, bits / 8)
  {
    if s == [] then []
    else MulStep(|s| - 1, bits / 8); EncodeSamples(s[..|s| - 1], bits) + SampleBytes(s[|s| - 1], bits)
  }

  lemma MulStep(n: nat, w: nat)
    ensures Mul(n + 1, w) == Mul(n, w) + w && Mul(0, w) == 0
  {
  }

  lemma {:induction false} SampleInPlace(s: seq<int>, bits: nat, i: nat)
    requires IntegerBits(bits) && (forall k :: 0 <= k < |s| ==> Fits(s[k], bits)) && i < |s|
    ensures Contains(EncodeSamples(s, bits), Mul(i, bits / 8), SampleBytes(s[i], bits))
  {
    hide Mul, SampleBytes, Fits;
    var n := |s| - 1;
    var before := EncodeSamples(s[..n], bits);
    assert EncodeSamples(s, bits) == before + SampleBytes(s[n], bits);
    if i < n {
      SampleInPlace(s[..n], bits, i);
      var at := Mul(i, bits / 8);
      assert (before + SampleBytes(s[n], bits))[at..at + bits / 8] == before[at..at + bits / 8];
    }
  }

  /** What the samples of a file stand for. */
  function Values(s: seq<int>, bits: nat): (v: seq<real>)
    requires IntegerBits(bits)
    ensures |v| == |s|
  {
    seq(|s|, i requires 0 <= i < |s| => s[i] as real / (Half(bits) as real))
  }

  /** The sum of the first `n` channels of frame `f` of interleaved samples. */
  function ChannelSum(v: seq<real>, channels: nat, f: nat, n: nat): real
    requires Mul(f, channels) + n <= |v|
  {
    if n == 0 then 0.0 else ChannelSum(v, channels, f, n - 1) + v[Mul(f, channels) + n - 1]
  }

  /** The data reads as the samples `v`. */
  ghost predicate ReadsAs(d: Bytes, l: Layout, floats: Floats, v: seq<real>)
    requires Decodable(l)
  {
    forall i: nat {:trigger v[i]} :: i < |v| ==> SampleIs(d, l, floats, i, v[i])
  }

  predicate SampleIs(d: Bytes, l: Layout, floats: Floats, i: nat, x: real)
    requires Decodable(l)
  {
    && l.start + Mul(i, l.width) + l.width <= |d|
    && Sample(d, l.start + Mul(i, l.width), l.bits, l.isFloat, floats) == x
  }

  lemma {:induction false} SumsAgree(d: Bytes, l: Layout, frames: nat, floats: Floats, v: seq<real>, f: nat, n: nat)
    requires Decodable(l) && Holds(d, l, frames) && f < frames && n <= l.channels
    requires |v| == Mul(frames, l.channels) && ReadsAs(d, l, floats, v)
    ensures Mul(f, l.channels) + n <= |v|
    ensures FrameSum(d, l, frames, floats, f, n) == ChannelSum(v, l.channels, f, n)
  {
    hide Mul, Sample;
    FrameInside(f, frames, l.channels);
    if n > 0 {
      SumsAgree(d, l, frames, floats, v, f, n - 1);
      OffsetInside(d, l, frames, f, n - 1);
      assert v[Mul(f, l.channels) + (n - 1)] == v[Mul(f, l.channels) + n - 1];
    }
  }

  lemma IntegersRead(d: Bytes, l: Layout, floats: Floats, s: seq<int>)
    requires Decodable(l) && !l.isFloat && forall i :: 0 <= i < |s| ==> Fits(s[i], l.bits)
    requires Contains(d, l.start, EncodeSamples(s, l.bits))
    ensures ReadsAs(d, l, floats, Values(s, l.bits))
  {
    hide SampleIs, EncodeSamples, Fits, Contains;
    var v := Values(s, l.bits);
    forall i: nat {:trigger v[i]} | i < |v| ensures SampleIs(d, l, floats, i, v[i]) { IntegerRead(d, l, floats, s, i); }
  }

  lemma IntegerRead(d: Bytes, l: Layout, floats: Floats, s: seq<int>, i: nat)
    requires Decodable(l) && !l.isFloat && (forall k :: 0 <= k < |s| ==> Fits(s[k], l.bits)) && i < |s|
    requires Contains(d, l.start, EncodeSamples(s, l.bits))
    ensures SampleIs(d, l, floats, i, s[i] as real / (Half(l.bits) as real))
  {
    hide Mul, EncodeSamples, SampleBytes, Sample, Fits, Contains;
    SampleInPlace(s, l.bits, i);
    ContainsWithin(d, l.start, EncodeSamples(s, l.bits), Mul(i, l.width), SampleBytes(s[i], l.bits));
    ContainsFits(d, l.start + Mul(i, l.width), SampleBytes(s[i], l.bits));
    SampleRoundTrip(d, l.start + Mul(i, l.width), s[i], l.bits, floats);
  }

  // ---- float samples -----------------------------------------------------------------------------------------------

  predicate PatternFits(u: nat, bits: nat) { u < (if bits == 32 then 0x1_0000_0000 else 0x1_0000_0000_0000_0000) }

  /** A float as WAVE stores it: its pattern of 32 or 64 bits, low byte first. */
  function FloatBytes(u: nat, bits: nat): (b: Bytes)
    requires bits in {32, 64}
    ensures |b| == bits / 8
  {
    if bits == 32 then LittleEndian(u, 4)
    else LittleEndian(u % 0x1_0000_0000, 4) + LittleEndian(u / 0x1_0000_0000, 4)
  }

  function EncodeFloats(u: seq<nat>, bits: nat): (b: Bytes)
    requires bits in {32, 64}
    ensures |b| == Mul(|u|, bits / 8)
  {
    if u == [] then []
    else MulStep(|u| - 1, bits / 8); EncodeFloats(u[..|u| - 1], bits) + FloatBytes(u[|u| - 1], bits)
  }

  function FloatValues(u: seq<nat>, bits: nat, floats: Floats): (v: seq<real>)
    ensures |v| == |u|
  {
    seq(|u|, i requires 0 <= i < |u| => if bits == 32 then floats.single(u[i]) else floats.double(u[i]))
  }

  lemma {:induction false} FloatInPlace(u: seq<nat>, bits: nat, i: nat)
    requires bits in {32, 64} && i < |u|
    ensures Contains(EncodeFloats(u, bits), Mul(i, bits / 8), FloatBytes(u[i], bits))
  {
    hide Mul, FloatBytes;
    var n := |u| - 1;
    var before := EncodeFloats(u[..n], bits);
    assert EncodeFloats(u, bits) == before + FloatBytes(u[n], bits);
    if i < n {
      FloatInPlace(u[..n], bits, i);
      var at := Mul(i, bits / 8);
      assert (before + FloatBytes(u[n], bits))[at..at + bits / 8] == before[at..at + bits / 8];
    }
  }

  /** Every float sample is read as its own pattern, both halves of a double included. */
  lemma FloatRoundTrip(d: Bytes, at: nat, u: nat, bits: nat, floats: Floats)
    requires bits in {32, 64} && PatternFits(u, bits)
    requires Contains(d, at, FloatBytes(u, bits))
    ensures at + bits / 8 <= |d|
    ensures Sample(d, at, bits, true, floats) == if bits == 32 then floats.single(u) else floats.double(u)
  {
    hide LittleEndian, FromLittleEndian, Le32, Power256;
    Powers();
    if bits == 32 {
      LittleEndianBack(u, 4);
      LeIsLittleEndian(d, at, 4);
    } else {
      ContainsParts(d, at, LittleEndian(u % 0x1_0000_0000, 4), LittleEndian(u / 0x1_0000_0000, 4));
      LittleEndianBack(u % 0x1_0000_0000, 4);
      LittleEndianBack(u / 0x1_0000_0000, 4);
      LeIsLittleEndian(d, at, 4);
      LeIsLittleEndian(d, at + 4, 4);
    }
  }

  lemma FloatsRead(d: Bytes, l: Layout, floats: Floats, u: seq<nat>)
    requires Decodable(l) && l.isFloat && Contains(d, l.start, EncodeFloats(u, l.bits))
    requires forall i :: 0 <= i < |u| ==> PatternFits(u[i], l.bits)
    ensures ReadsAs(d, l, floats, FloatValues(u, l.bits, floats))
  {
    hide SampleIs, EncodeFloats, Contains;
    var v := FloatValues(u, l.bits, floats);
    forall i: nat {:trigger v[i]} | i < |v| ensures SampleIs(d, l, floats, i, v[i]) { FloatRead(d, l, floats, u, i); }
  }

  lemma FloatRead(d: Bytes, l: Layout, floats: Floats, u: seq<nat>, i: nat)
    requires Decodable(l) && l.isFloat && Contains(d, l.start, EncodeFloats(u, l.bits)) && i < |u|
    requires PatternFits(u[i], l.bits)
    ensures SampleIs(d, l, floats, i, if l.bits == 32 then floats.single(u[i]) else floats.double(u[i]))
  {
    hide Mul, EncodeFloats, FloatBytes, Sample, Contains, PatternFits;
    FloatInPlace(u, l.bits, i);
    ContainsWithin(d, l.start, EncodeFloats(u, l.bits), Mul(i, l.width), FloatBytes(u[i], l.bits));
    ContainsFits(d, l.start + Mul(i, l.width), FloatBytes(u[i], l.bits));
    FloatRoundTrip(d, l.start + Mul(i, l.width), u[i], l.bits, floats);
  }

  // ---- whole files ---------------------------------------------------------------------------------------------------

  lemma FrameInside(f: nat, frames: nat, channels: nat)
    requires f < frames
    ensures Mul(f, channels) + channels <= Mul(frames, channels)
  {
    MulLe(f + 1, frames, channels);
  }

  lemma ContainsWithin(d: Bytes, pos: nat, part: Bytes, at: nat, piece: Bytes)
    requires Contains(d, pos, part) && Contains(part, at, piece)
    ensures Contains(d, pos + at, piece)
  {
    forall i | 0 <= i < |piece| ensures d[pos + at + i] == piece[i] {
      assert part[at..at + |piece|][i] == part[at + i] && d[pos..pos + |part|][at + i] == d[pos + at + i];
    }
  }

  /** What a decoded file comes out as: the header's numbers, and every frame's mean. */
  ghost predicate DecodesTo(r: Result<Audio, Error>, f: Format, frames: nat, v: seq<real>, kept: real -> real)
    requires |v| == Mul(frames, f.channels) && f.channels > 0
  {
    && r.Success? && r.value == Audio(ToInt32(f.rate), f.channels, f.bits, f.tag == 3, r.value.samples)
    && |r.value.samples| == frames
    && forall k: nat :: k < frames ==>
         Mul(k, f.channels) + f.channels <= |v|
         && r.value.samples[k] == kept(ChannelSum(v, f.channels, k, f.channels) / (f.channels as real))
  }

  /** A file of `frames` frames whose data reads as `v`. */
  lemma DecodesFrames(size: Bytes, pre: seq<Chunk>, fmtBody: Bytes, mid: seq<Chunk>, f: Format, audio: Bytes,
                      v: seq<real>, frames: nat, post: Bytes, floats: Floats)
    requires WellFormed(size, pre, fmtBody, mid, |audio|, f) && 1 <= f.channels <= 64 && f.rate > 0 && frames >= 1
    requires f.tag in {1, 3} && f.bits in (if f.tag == 3 then {32, 64} else {8, 16, 24, 32})
    requires f.blockAlign == Mul(f.bits / 8, f.channels)
    requires |v| == Mul(frames, f.channels) && |audio| == Mul(|v|, f.bits / 8)
    requires var head := Preamble(size, pre, fmtBody, mid);
             ReadsAs(head + (Header(DATA, |audio|) + (audio + post)),
                     Layout(|head| + 8, f.channels, f.bits / 8, f.bits, f.tag == 3), floats, v)
    ensures DecodesTo(Decoded(Preamble(size, pre, fmtBody, mid) + (Header(DATA, |audio|) + (audio + post)), floats), f, frames,
                      v, (m: real) => if f.tag == 3 then floats.narrow(m) else F.Stored(m))
  {
    hide Walk, Encode, EncodeAll, ReadFormat, Describes, LittleEndian, Mul, Div, Sample, Preamble, F.Stored, ReadsAs, ToInt32;
    var head := Preamble(size, pre, fmtBody, mid);
    var d := head + (Header(DATA, |audio|) + (audio + post));
    FindsData(size, pre, fmtBody, mid, |audio|, audio + post, f);
    var pcm := Span(|head| + 8, |audio|);
    FrameCount(frames, f.bits / 8, f.channels, |v|);
    FramesHeld(d, f, pcm);
    var l := LayoutOf(f, pcm);
    forall k: nat | k < frames
      ensures Mul(k, f.channels) + f.channels <= |v|
      ensures FrameSum(d, l, frames, floats, k, f.channels) == ChannelSum(v, f.channels, k, f.channels) {
      SumsAgree(d, l, frames, floats, v, k, f.channels);
    }
  }

  /** A well-formed integer PCM file is decoded to the stored mean of its channels, frame by frame, whatever unknown chunks
      stand before the format and the data and whatever follows. */
  lemma RecoversMonoMeans(size: Bytes, pre: seq<Chunk>, fmtBody: Bytes, mid: seq<Chunk>, f: Format, s: seq<int>,
                          frames: nat, post: Bytes, floats: Floats)
    requires f.tag == 1 && IntegerBits(f.bits) && 1 <= f.channels <= 64 && f.rate > 0 && frames >= 1
    requires f.blockAlign == Mul(f.bits / 8, f.channels)
    requires |s| == Mul(frames, f.channels) && forall i :: 0 <= i < |s| ==> Fits(s[i], f.bits)
    requires WellFormed(size, pre, fmtBody, mid, |EncodeSamples(s, f.bits)|, f)
    ensures var audio := EncodeSamples(s, f.bits);
            DecodesTo(Decoded(Preamble(size, pre, fmtBody, mid) + (Header(DATA, |audio|) + (audio + post)), floats), f, frames,
                      Values(s, f.bits), F.Stored)
  {
    hide Walk, Encode, EncodeAll, ReadFormat, Describes, LittleEndian, Mul, Sample, Fits, EncodeSamples, Preamble, F.Stored, ReadsAs, Decoded;
    hide Header, Values;
    var audio := EncodeSamples(s, f.bits);
    var head := Preamble(size, pre, fmtBody, mid);
    var d := head + (Header(DATA, |audio|) + (audio + post));
    DataInPlace(head, audio, post);
    IntegersRead(d, Layout(|head| + 8, f.channels, f.bits / 8, f.bits, false), floats, s);
    DecodesFrames(size, pre, fmtBody, mid, f, audio, Values(s, f.bits), frames, post, floats);
  }

  /** So is a well-formed float file, to the narrowed mean. */
  lemma RecoversFloatMeans(size: Bytes, pre: seq<Chunk>, fmtBody: Bytes, mid: seq<Chunk>, f: Format, u: seq<nat>,
                           frames: nat, post: Bytes, floats: Floats)
    requires f.tag == 3 && f.bits in {32, 64} && 1 <= f.channels <= 64 && f.rate > 0 && frames >= 1
    requires f.blockAlign == Mul(f.bits / 8, f.channels) && |u| == Mul(frames, f.channels)
    requires forall i :: 0 <= i < |u| ==> PatternFits(u[i], f.bits)
    requires WellFormed(size, pre, fmtBody, mid, |EncodeFloats(u, f.bits)|, f)
    ensures var audio := EncodeFloats(u, f.bits);
            DecodesTo(Decoded(Preamble(size, pre, fmtBody, mid) + (Header(DATA, |audio|) + (audio + post)), floats), f, frames,
                      FloatValues(u, f.bits, floats), floats.narrow)
  {
    hide Walk, Encode, EncodeAll, ReadFormat, Describes, LittleEndian, Mul, Sample, EncodeFloats, Preamble, ReadsAs, Decoded;
    hide Header, FloatValues;
    var audio := EncodeFloats(u, f.bits);
    var head := Preamble(size, pre, fmtBody, mid);
    var d := head + (Header(DATA, |audio|) + (audio + post));
    DataInPlace(head, audio, post);
    FloatsRead(d, Layout(|head| + 8, f.channels, f.bits / 8, f.bits, true), floats, u);
    DecodesFrames(size, pre, fmtBody, mid, f, audio, FloatValues(u, f.bits, floats), frames, post, floats);
  }

  lemma DataInPlace(head: Bytes, audio: Bytes, post: Bytes)
    ensures Contains(head + (Header(DATA, |audio|) + (audio + post)), |head| + 8, audio)
  {
    hide LittleEndian;
    var d := head + (Header(DATA, |audio|) + (audio + post));
    assert d[|head| + 8..] == audio + post;
    assert d[|head| + 8..|head| + 8 + |audio|] == audio;
  }

  lemma FrameCount(frames: nat, width: nat, channels: nat, samples: nat)
    requires samples == Mul(frames, channels) && width >= 1 && channels >= 1
    ensures Mul(width, channels) > 0 && Div(Mul(samples, width), Mul(width, channels)) == frames
  {
    MulLe(1, width, channels);
    assert frames * channels * width == (width * channels) * frames;
    DivModOf(samples * width, width * channels, frames, 0);
  }

  /** A data length field of 0 is taken at its word, though the walk's comment means it for streamed files: such a file is
      always refused. With 0xFFFFFFFF the rest of the file is taken. */
  lemma ZeroDataLengthRefused(size: Bytes, pre: seq<Chunk>, fmtBody: Bytes, mid: seq<Chunk>, f: Format, rest: Bytes,
                              floats: Floats)
    requires WellFormed(size, pre, fmtBody, mid, 0, f)
    ensures Decoded(Preamble(size, pre, fmtBody, mid) + (Header(DATA, 0) + rest), floats).Failure?
  {
    hide Walk, Encode, EncodeAll, ReadFormat, Describes, LittleEndian, Preamble;
    FindsData(size, pre, fmtBody, mid, 0, rest, f);
  }
}
