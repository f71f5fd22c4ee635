/** One station's I/O buffers as a value, and the fixed 64-byte frame
    `PlcData.pack`/`PlcData.unpack` exchange with a station: the struct
    format `8H8H16?16?`, sixteen unsigned 16-bit words (little-endian)
    followed by thirty-two one-byte booleans. */
module Codec {
  import opened PyStr

  type Byte = b: int | 0 <= b < 256

  const ANALOG_BUF_SIZE: nat := 8
  const DIGITAL_BUF_SIZE: nat := 16
  /** 8 + 8 words of two bytes, then 16 + 16 flags of one byte. */
  const FRAME_SIZE: nat := 2 * (2 * ANALOG_BUF_SIZE) + 2 * DIGITAL_BUF_SIZE

  /** The four buffers of a station (the `Type` enumeration). */
  datatype VarType = AnalogIn | AnalogOut | DigitalIn | DigitalOut

  /** The contents of a `PlcData` object. */
  datatype StationState = StationState(
    analogIn: seq<int>,
    analogOut: seq<int>,
    digitalIn: seq<bool>,
    digitalOut: seq<bool>)

  predicate WellShaped(s: StationState) {
    |s.analogIn| == ANALOG_BUF_SIZE && |s.analogOut| == ANALOG_BUF_SIZE &&
    |s.digitalIn| == DIGITAL_BUF_SIZE && |s.digitalOut| == DIGITAL_BUF_SIZE
  }

  /** What the struct code `H` accepts. */
  predicate IsWord(n: int) { 0 <= n < 0x1_0000 }

  predicate AllWords(ws: seq<int>) {
    forall i :: 0 <= i < |ws| ==> IsWord(ws[i])
  }

  /** The states `pack` can serialise without raising struct.error. */
  predicate Packable(s: StationState) {
    WellShaped(s) && AllWords(s.analogIn) && AllWords(s.analogOut)
  }

  /** A freshly constructed `PlcData()`. */
  function Zero(): (s: StationState)
    ensures Packable(s)
    ensures forall i :: 0 <= i < ANALOG_BUF_SIZE ==> s.analogIn[i] == 0 && s.analogOut[i] == 0
    ensures forall i :: 0 <= i < DIGITAL_BUF_SIZE ==> !s.digitalIn[i] && !s.digitalOut[i]
  {
    StationState(seq(ANALOG_BUF_SIZE, _ => 0), seq(ANALOG_BUF_SIZE, _ => 0),
                 seq(DIGITAL_BUF_SIZE, _ => false), seq(DIGITAL_BUF_SIZE, _ => false))
  }

  // ---------------------------------------------------------------------
  // struct.pack / struct.unpack of the codes H and ?
  // ---------------------------------------------------------------------

  /** Code `H`, low byte first. */
  function PackWords(ws: seq<int>): (b: seq<Byte>)
    requires AllWords(ws)
    ensures |b| == 2 * |ws|
  {
    if ws == [] then []
    else [ws[0] % 256, ws[0] / 256] + PackWords(ws[1..])
  }

  function UnpackWords(b: seq<Byte>): (ws: seq<int>)
    requires |b| % 2 == 0
    ensures |ws| == |b| / 2 && AllWords(ws)
  {
    if b == [] then []
    else [b[0] + 256 * b[1]] + UnpackWords(b[2..])
  }

  /** Code `?` when packing a `bool`. */
  function PackFlags(xs: seq<bool>): (b: seq<Byte>)
    ensures |b| == |xs|
  {
    if xs == [] then []
    else [if xs[0] then 1 else 0] + PackFlags(xs[1..])
  }

  /** Code `?` when unpacking: any byte other than zero is `True`. */
  function UnpackFlags(b: seq<Byte>): (xs: seq<bool>)
    ensures |xs| == |b|
  {
    if b == [] then []
    else [b[0] != 0] + UnpackFlags(b[1..])
  }

  lemma {:induction false} UnpackPackWords(ws: seq<int>)
    requires AllWords(ws)
    ensures UnpackWords(PackWords(ws)) == ws
  {
    if ws != [] {
      var b := PackWords(ws);
      assert b[2..] == PackWords(ws[1..]);
      UnpackPackWords(ws[1..]);
    }
  }

  lemma {:induction false} UnpackPackFlags(xs: seq<bool>)
    ensures UnpackFlags(PackFlags(xs)) == xs
  {
    if xs != [] {
      var b := PackFlags(xs);
      assert b[1..] == PackFlags(xs[1..]);
      UnpackPackFlags(xs[1..]);
    }
  }

  /** Packing the unpacked words gives the bytes back: every byte pair is a word. */
  lemma {:induction false} PackUnpackWords(b: seq<Byte>)
    requires |b| % 2 == 0
    ensures PackWords(UnpackWords(b)) == b
  {
    if b != [] {
      var ws := UnpackWords(b);
      assert ws[1..] == UnpackWords(b[2..]);
      PackUnpackWords(b[2..]);
      assert b == [b[0], b[1]] + b[2..];
    }
  }

  /** Packing the unpacked flags gives the bytes back exactly when each was 0 or 1. */
  lemma {:induction false} PackUnpackFlags(b: seq<Byte>)
    ensures PackFlags(UnpackFlags(b)) == b <==> forall i :: 0 <= i < |b| ==> b[i] <= 1
  {
    if b != [] {
      var xs := UnpackFlags(b);
      assert xs[1..] == UnpackFlags(b[1..]);
      PackUnpackFlags(b[1..]);
      var p := PackFlags(xs);
      assert p == [p[0]] + PackFlags(UnpackFlags(b[1..]));
      assert b == [b[0]] + b[1..];
      if forall i :: 0 <= i < |b| ==> b[i] <= 1 {
        assert forall i :: 0 <= i < |b| - 1 ==> b[1..][i] <= 1;
      }
      if forall i :: 0 <= i < |b| - 1 ==> b[1..][i] <= 1 {
        assert forall i :: 1 <= i < |b| ==> b[i] == b[1..][i - 1];
      }
    }
  }

  /** Byte `2*i` and `2*i + 1` of the packed words are word `i`, low byte first. */
  lemma {:induction false} PackWordsAt(ws: seq<int>, i: nat)
    requires AllWords(ws) && i < |ws|
    ensures PackWords(ws)[2 * i] == ws[i] % 256
    ensures PackWords(ws)[2 * i + 1] == ws[i] / 256
  {
    if i > 0 {
      PackWordsAt(ws[1..], i - 1);
    }
  }

  lemma {:induction false} PackFlagsAt(xs: seq<bool>, i: nat)
    requires i < |xs|
    ensures PackFlags(xs)[i] == if xs[i] then 1 else 0
  {
    if i > 0 {
      PackFlagsAt(xs[1..], i - 1);
    }
  }

  /** Word `i` of the unpacked words is bytes `2*i` and `2*i + 1`, low byte first. */
  lemma {:induction false} UnpackWordsAt(b: seq<Byte>, i: nat)
    requires |b| % 2 == 0 && i < |b| / 2
    ensures UnpackWords(b)[i] == WordAt(b, 2 * i)
  {
    if i > 0 {
      UnpackWordsAt(b[2..], i - 1);
    }
  }

  /** Flag `i` of the unpacked flags is `True` exactly when byte `i` is not zero. */
  lemma {:induction false} UnpackFlagsAt(b: seq<Byte>, i: nat)
    requires i < |b|
    ensures UnpackFlags(b)[i] == (b[i] != 0)
  {
    if i > 0 {
      UnpackFlagsAt(b[1..], i - 1);
    }
  }

  // ---------------------------------------------------------------------
  // The station frame
  // ---------------------------------------------------------------------

  /** `PlcData.pack`: `struct.pack('8H8H16?16?', *analogIn, *analogOut,
      *digitalIn, *digitalOut)`; it always fills the whole frame. */
  function Encode(s: StationState): (b: seq<Byte>)
    requires Packable(s)
    ensures |b| == FRAME_SIZE
  {
    PackWords(s.analogIn + s.analogOut) + PackFlags(s.digitalIn + s.digitalOut)
  }

  /** `PlcData.unpack`: `struct.unpack` yields 16 words then 32 flags, and
      the tuple is cut at 8, 16 and 32; any other length than the frame's
      raises struct.error (`None`). */
  function Decode(b: seq<Byte>): (r: Option<StationState>)
    ensures r.Some? <==> |b| == FRAME_SIZE
    ensures r.Some? ==> Packable(r.value)
  {
    if |b| != FRAME_SIZE then None
    else
      var words := UnpackWords(b[..2 * (2 * ANALOG_BUF_SIZE)]);
      var flags := UnpackFlags(b[2 * (2 * ANALOG_BUF_SIZE)..]);
      Some(StationState(words[..ANALOG_BUF_SIZE], words[ANALOG_BUF_SIZE..],
                        flags[..DIGITAL_BUF_SIZE], flags[DIGITAL_BUF_SIZE..]))
  }

  /** Unpacking what `pack` produced restores all four buffers exactly. */
  lemma DecodeEncode(s: StationState)
    requires Packable(s)
    ensures Decode(Encode(s)) == Some(s)
  {
    var b := Encode(s);
    var ws := s.analogIn + s.analogOut;
    var xs := s.digitalIn + s.digitalOut;
    assert b[..32] == PackWords(ws);
    assert b[32..] == PackFlags(xs);
    UnpackPackWords(ws);
    UnpackPackFlags(xs);
    assert ws[..8] == s.analogIn && ws[8..] == s.analogOut;
    assert xs[..16] == s.digitalIn && xs[16..] == s.digitalOut;
  }

  /** Distinct packable states never share a frame. */
  lemma EncodeInjective(s: StationState, t: StationState)
    requires Packable(s) && Packable(t)
    requires Encode(s) == Encode(t)
    ensures s == t
  {
    DecodeEncode(s);
    DecodeEncode(t);
  }

  /** A frame of the right length survives unpack-then-pack exactly when
      its 32 flag bytes are all 0 or 1. */
  lemma EncodeDecode(b: seq<Byte>)
    requires |b| == FRAME_SIZE
    ensures Encode(Decode(b).value) == b <==> forall i :: 32 <= i < FRAME_SIZE ==> b[i] <= 1
  {
    var s := Decode(b).value;
    var words := UnpackWords(b[..32]);
    var flags := UnpackFlags(b[32..]);
    assert s.analogIn + s.analogOut == words;
    assert s.digitalIn + s.digitalOut == flags;
    PackUnpackWords(b[..32]);
    PackUnpackFlags(b[32..]);
    assert b == b[..32] + b[32..];
    assert (forall i :: 32 <= i < FRAME_SIZE ==> b[i] <= 1)
       <==> (forall i :: 0 <= i < 32 ==> b[32..][i] <= 1) by {
      assert forall i :: 0 <= i < 32 ==> b[32..][i] == b[32 + i];
    }
  }

  /** The little-endian word stored at bytes `k` and `k + 1`. */
  function WordAt(b: seq<Byte>, k: nat): int
    requires k + 1 < |b|
  {
    b[k] as int + 256 * (b[k + 1] as int)
  }

  /** What `unpack` reads from any 64-byte frame: the little-endian words at
      bytes 0-15 and 16-31, then one flag per byte, `True` for every byte
      other than zero. */
  lemma DecodeLayout(b: seq<Byte>)
    requires |b| == FRAME_SIZE
    ensures forall i :: 0 <= i < ANALOG_BUF_SIZE ==>
      Decode(b).value.analogIn[i] == WordAt(b, 2 * i)
    ensures forall i :: 0 <= i < ANALOG_BUF_SIZE ==>
      Decode(b).value.analogOut[i] == WordAt(b, 16 + 2 * i)
    ensures forall i :: 0 <= i < DIGITAL_BUF_SIZE ==>
      Decode(b).value.digitalIn[i] == (b[32 + i] != 0)
    ensures forall i :: 0 <= i < DIGITAL_BUF_SIZE ==>
      Decode(b).value.digitalOut[i] == (b[48 + i] != 0)
  {
    var s := Decode(b).value;
    var words, flags := b[..32], b[32..];
    forall i | 0 <= i < ANALOG_BUF_SIZE
      ensures s.analogIn[i] == WordAt(b, 2 * i)
    {
      UnpackWordsAt(words, i);
    }
    forall i | 0 <= i < ANALOG_BUF_SIZE
      ensures s.analogOut[i] == WordAt(b, 16 + 2 * i)
    {
      UnpackWordsAt(words, 8 + i);
    }
    forall i | 0 <= i < DIGITAL_BUF_SIZE
      ensures s.digitalIn[i] == (b[32 + i] != 0)
    {
      UnpackFlagsAt(flags, i);
    }
    forall i | 0 <= i < DIGITAL_BUF_SIZE
      ensures s.digitalOut[i] == (b[48 + i] != 0)
    {
      UnpackFlagsAt(flags, 16 + i);
    }
  }

  /** The byte layout of the frame: analogIn words at bytes 0-15, analogOut
      words at bytes 16-31 (low byte first), then digitalIn and digitalOut
      one byte each (1 for true, 0 for false). */
  lemma EncodeLayout(s: StationState)
    requires Packable(s)
    ensures forall i :: 0 <= i < ANALOG_BUF_SIZE ==>
      WordAt(Encode(s), 2 * i) == s.analogIn[i]
    ensures forall i :: 0 <= i < ANALOG_BUF_SIZE ==>
      WordAt(Encode(s), 16 + 2 * i) == s.analogOut[i]
    ensures forall i :: 0 <= i < DIGITAL_BUF_SIZE ==>
      Encode(s)[32 + i] == (if s.digitalIn[i] then 1 else 0)
    ensures forall i :: 0 <= i < DIGITAL_BUF_SIZE ==>
      Encode(s)[48 + i] == (if s.digitalOut[i] then 1 else 0)
  {
    var ws := s.analogIn + s.analogOut;
    var xs := s.digitalIn + s.digitalOut;
    forall i | 0 <= i < ANALOG_BUF_SIZE
      ensures WordAt(Encode(s), 2 * i) == s.analogIn[i]
    {
      PackWordsAt(ws, i);
    }
    forall i | 0 <= i < ANALOG_BUF_SIZE
      ensures WordAt(Encode(s), 16 + 2 * i) == s.analogOut[i]
    {
      PackWordsAt(ws, 8 + i);
    }
    forall i | 0 <= i < DIGITAL_BUF_SIZE
      ensures Encode(s)[32 + i] == (if s.digitalIn[i] then 1 else 0)
    {
      PackFlagsAt(xs, i);
    }
    forall i | 0 <= i < DIGITAL_BUF_SIZE
      ensures Encode(s)[48 + i] == (if s.digitalOut[i] then 1 else 0)
    {
      PackFlagsAt(xs, 16 + i);
    }
  }

  // ---------------------------------------------------------------------
  // Reading and writing one slot
  // ---------------------------------------------------------------------

  datatype Slot = Analog(n: int) | Digital(b: bool)

  /** `buffer[i]` of the buffer `t`, or `None` when `i` is out of range. */
  function Get(s: StationState, t: VarType, i: nat): Option<Slot> {
    match t
    case AnalogIn => if i < |s.analogIn| then Some(Analog(s.analogIn[i])) else None
    case AnalogOut => if i < |s.analogOut| then Some(Analog(s.analogOut[i])) else None
    case DigitalIn => if i < |s.digitalIn| then Some(Digital(s.digitalIn[i])) else None
    case DigitalOut => if i < |s.digitalOut| then Some(Digital(s.digitalOut[i])) else None
  }

  /** The buffer a received simulation sample lands in: `digitalIn` for a
      digital input, `analogIn` for every other type. */
  function SampleTarget(t: VarType): VarType {
    if t == DigitalIn then DigitalIn else AnalogIn
  }

  /** The stored value of a sample converted both ways. */
  function NewSlot(t: VarType, asBool: bool, asInt: int): Option<Slot> {
    Some(if t == DigitalIn then Digital(asBool) else Analog(asInt))
  }

  function BufferSize(t: VarType): nat {
    if t == AnalogIn || t == AnalogOut then ANALOG_BUF_SIZE else DIGITAL_BUF_SIZE
  }

  /** Storing one sample: `digitalIn[j] = bool(sample)` or
      `analogIn[j] = int(sample)`; the two conversions are given. Exactly
      that slot changes. */
  function StoreSample(s: StationState, t: VarType, j: nat, asBool: bool, asInt: int): (r: StationState)
    requires WellShaped(s) && j < BufferSize(SampleTarget(t))
    ensures WellShaped(r)
    ensures forall u: VarType, i: nat ::
              Get(r, u, i) == if u == SampleTarget(t) && i == j then NewSlot(t, asBool, asInt) else Get(s, u, i)
  {
    if t == DigitalIn then s.(digitalIn := s.digitalIn[j := asBool])
    else s.(analogIn := s.analogIn[j := asInt])
  }
}
