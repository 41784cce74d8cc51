/** The DS18B20 driver: a bus master on a 1-Wire line that writes command
    bytes least-significant bit first, reads the first two scratchpad bytes
    and assembles the signed 16-bit raw temperature.

    The line is modelled by two sequences: the slots the master drives
    (`trace`) and the levels its pin samples, in order (`levels`).  The
    microsecond timings of each slot are not modelled. */
module Ds18b20 {

  type byte = bv8

  /** One slot the master drives on the line. */
  datatype BusEvent =
    | ResetPulse          // line held low 480 us, then the presence level is sampled
    | WriteSlot(bit: bool)
    | ReadSlot            // line held low 6 us, then the level is sampled
    | ConversionWait      // the 750 ms task delay while the sensor converts

  /** ROM and function commands of the DS18B20. */
  const SKIP_ROM: byte := 0xCC
  const CONVERT_T: byte := 0x44
  const READ_SCRATCHPAD: byte := 0xBE

  /** The reading reported when no sensor answers a reset: -1000.0 degrees,
      written in sixteenths of a degree like every other reading. */
  const NO_SENSOR: int := -16000

  // ---------------------------------------------------------------------
  // Bit order of a byte on the wire

  /** Bit `i` of `b`, as `(b >> i) & 1`. */
  predicate Bit(b: byte, i: nat)
    requires i < 8
  {
    (b >> i) & 1 == 1
  }

  /** The eight bits of `b` in the order they go on the wire: least
      significant first. */
  function BitsOf(b: byte): (bits: seq<bool>)
    ensures |bits| == 8
    ensures forall i | 0 <= i < 8 :: bits[i] == Bit(b, i)
  {
    seq(8, i requires 0 <= i < 8 => Bit(b, i))
  }

  /** The byte whose bit `i` is the `i`-th bit received, for up to eight
      bits received least significant first; the bits not yet received are
      clear. */
  function ByteOf(bits: seq<bool>): (b: byte)
    requires |bits| <= 8
    ensures forall i | 0 <= i < |bits| :: Bit(b, i) == bits[i]
    ensures forall i | |bits| <= i < 8 :: !Bit(b, i)
  {
    if bits == [] then 0
    else
      var n := |bits| - 1;
      var low := ByteOf(bits[..n]);
      var b := if bits[n] then low | (1 << n) else low;
      SetBitAt(low, n);
      assert forall i | 0 <= i < 8 :: Bit(b, i) == (Bit(low, i) || (bits[n] && i == n));
      b
  }

  /** Or-ing in `1 << n` sets bit `n` and no other. */
  lemma SetBitAt(x: byte, n: nat)
    requires n < 8
    ensures forall i | 0 <= i < 8 :: Bit(x | (1 << n), i) == (Bit(x, i) || i == n)
  {
  }

  /** Two bytes with the same eight bits are equal. */
  lemma {:induction false} SameBits(b: byte, c: byte)
    requires forall i | 0 <= i < 8 :: Bit(b, i) == Bit(c, i)
    ensures b == c
  {
    assert Bit(b, 0) == Bit(c, 0) && Bit(b, 1) == Bit(c, 1);
    assert Bit(b, 2) == Bit(c, 2) && Bit(b, 3) == Bit(c, 3);
    assert Bit(b, 4) == Bit(c, 4) && Bit(b, 5) == Bit(c, 5);
    assert Bit(b, 6) == Bit(c, 6) && Bit(b, 7) == Bit(c, 7);
  }

  /** Reading back the bits a byte was written as gives the byte. */
  lemma {:induction false} ByteOfBitsOf(b: byte)
    ensures ByteOf(BitsOf(b)) == b
  {
    SameBits(ByteOf(BitsOf(b)), b);
  }

  /** Every eight bits on the wire are the image of exactly one byte. */
  lemma {:induction false} BitsOfByteOf(bits: seq<bool>)
    requires |bits| == 8
    ensures BitsOf(ByteOf(bits)) == bits
  {
  }

  // ---------------------------------------------------------------------
  // The line as seen by the master

  /** The slots that write `bits`, in order. */
  function WriteSlots(bits: seq<bool>): seq<BusEvent>
  {
    seq(|bits|, k requires 0 <= k < |bits| => WriteSlot(bits[k]))
  }

  /** The slots that write the byte `b`. */
  function ByteWrite(b: byte): seq<BusEvent>
  {
    WriteSlots(BitsOf(b))
  }

  /** `n` read slots. */
  function ReadSlots(n: nat): seq<BusEvent>
  {
    seq(n, k => ReadSlot)
  }

  /** The level of the `k`-th sample; once the listed samples are used up
      the line idles high (released, pulled up). */
  function Level(levels: seq<bool>, k: nat): bool
  {
    if k < |levels| then levels[k] else true
  }

  /** The first `n` levels sampled. */
  function Sampled(levels: seq<bool>, n: nat): (s: seq<bool>)
    ensures |s| == n
  {
    seq(n, k requires 0 <= k < n => Level(levels, k))
  }

  /** The levels still to be sampled after `n` samples. */
  function Consumed(levels: seq<bool>, n: nat): seq<bool>
  {
    if n <= |levels| then levels[n..] else []
  }

  lemma {:induction false} LevelAfter(levels: seq<bool>, n: nat, k: nat)
    ensures Level(Consumed(levels, n), k) == Level(levels, n + k)
  {
  }

  lemma {:induction false} ConsumedTwice(levels: seq<bool>, m: nat, n: nat)
    ensures Consumed(Consumed(levels, m), n) == Consumed(levels, m + n)
  {
    if m + n <= |levels| {
      assert levels[m..][n..] == levels[m + n..];
    }
  }

  /** The temperature `Int16(msb, lsb)` stands for, in sixteenths of a degree:
      the 16 bits `(msb << 8) | lsb` read as a two's-complement number. */
  function Int16(msb: byte, lsb: byte): (raw: int)
    ensures -32768 <= raw <= 32767
    ensures raw < 0 <==> msb >= 0x80
    ensures raw % 65536 == msb as int * 256 + lsb as int
  {
    var u := msb as int * 256 + lsb as int;
    if u < 0x8000 then u else u - 0x1_0000
  }

  /** What `readTemperature` returns for a line that will sample `levels`:
      the sentinel when either reset finds no presence pulse (a high level),
      otherwise the raw value of the two scratchpad bytes read after the two
      presence samples. */
  function TemperatureFrom(levels: seq<bool>): (t: int)
    ensures -32768 <= t <= 32767
  {
    if Level(levels, 0) || Level(levels, 1) then NO_SENSOR
    else
      var lsb := ByteOf(Sampled(Consumed(levels, 2), 8));
      var msb := ByteOf(Sampled(Consumed(levels, 10), 8));
      Int16(msb, lsb)
  }

  /** A sensor that answers both resets and then sends `lsb` and `msb` is
      read as the raw temperature `(msb << 8) | lsb`. */
  lemma {:induction false} PresentSensorRead(lsb: byte, msb: byte, rest: seq<bool>)
    ensures TemperatureFrom([false, false] + BitsOf(lsb) + BitsOf(msb) + rest) == Int16(msb, lsb)
  {
    var levels := [false, false] + BitsOf(lsb) + BitsOf(msb) + rest;
    assert Sampled(Consumed(levels, 2), 8) == BitsOf(lsb);
    assert Sampled(Consumed(levels, 10), 8) == BitsOf(msb);
    ByteOfBitsOf(lsb);
    ByteOfBitsOf(msb);
  }

  /** A line on which nothing answers the first reset, or on which the
      sensor answers the first reset but not the second, yields the
      sentinel. */
  lemma {:induction false} AbsentSensorRead(rest: seq<bool>)
    ensures TemperatureFrom([true] + rest) == NO_SENSOR
    ensures TemperatureFrom([false, true] + rest) == NO_SENSOR
  {
  }

  /** The sentinel is itself a raw value the sensor could send: raw 0xC180
      also reads as -1000.0 degrees, so the caller cannot tell the two apart. */
  lemma SentinelIsAReading()
    ensures Int16(0xC1, 0x80) == NO_SENSOR
  {
  }

  class DS18B20 {
    /** The slots driven so far, oldest first. */
    var trace: seq<BusEvent>
    /** The levels the pin will sample, in order. */
    var levels: seq<bool>

    /** The pin is configured open-drain and released; nothing is driven yet. */
    constructor (line: seq<bool>)
      ensures trace == [] && levels == line
    {
      trace := [];
      levels := line;
    }

    /** Samples the line once. */
    method SampleLine() returns (level: bool)
      modifies this
      ensures level == Level(old(levels), 0)
      ensures levels == Consumed(old(levels), 1)
      ensures trace == old(trace)
    {
      if levels == [] {
        level := true;
      } else {
        level := levels[0];
        levels := levels[1..];
      }
    }

    /** A reset pulse; a sensor answers by pulling the line low. */
    method Reset() returns (presence: bool)
      modifies this
      ensures presence == !Level(old(levels), 0)
      ensures levels == Consumed(old(levels), 1)
      ensures trace == old(trace) + [ResetPulse]
    {
      trace := trace + [ResetPulse];
      var level := SampleLine();
      presence := !level;
    }

    method WriteBit(bit: bool)
      modifies this
      ensures trace == old(trace) + [WriteSlot(bit)]
      ensures levels == old(levels)
    {
      trace := trace + [WriteSlot(bit)];
    }

    method ReadBit() returns (bit: bool)
      modifies this
      ensures bit == Level(old(levels), 0)
      ensures levels == Consumed(old(levels), 1)
      ensures trace == old(trace) + [ReadSlot]
    {
      trace := trace + [ReadSlot];
      bit := SampleLine();
    }

    /** Writes `b` as eight slots, least significant bit first. */
    method WriteByte(b: byte)
      modifies this
      ensures trace == old(trace) + ByteWrite(b)
      ensures levels == old(levels)
    {
      var rest := b;
      var i := 0;
      while i < 8
        invariant 0 <= i <= 8
        invariant rest == b >> i
        invariant trace == old(trace) + WriteSlots(BitsOf(b)[..i])
        invariant levels == old(levels)
      {
        assert WriteSlots(BitsOf(b)[..i + 1]) == WriteSlots(BitsOf(b)[..i]) + [WriteSlot(Bit(b, i))];
        WriteBit(rest & 1 == 1);
        rest := rest >> 1;
        i := i + 1;
      }
      assert BitsOf(b)[..8] == BitsOf(b);
    }

    /** Reads eight slots; the `i`-th level read is bit `i` of the result. */
    method ReadByte() returns (b: byte)
      modifies this
      ensures b == ByteOf(Sampled(old(levels), 8))
      ensures levels == Consumed(old(levels), 8)
      ensures trace == old(trace) + ReadSlots(8)
    {
      b := 0;
      for i := 0 to 8
        invariant b == ByteOf(Sampled(old(levels), i))
        invariant levels == Consumed(old(levels), i)
        invariant trace == old(trace) + ReadSlots(i)
      {
        LevelAfter(old(levels), i, 0);
        ConsumedTwice(old(levels), i, 1);
        assert Sampled(old(levels), i + 1)[..i] == Sampled(old(levels), i);
        assert ReadSlots(i + 1) == ReadSlots(i) + [ReadSlot];
        var bit := ReadBit();
        if bit {
          b := b | (1 << i);
        }
      }
    }

    /** Looks for a sensor: the outcome of one reset pulse. */
    method Init() returns (present: bool)
      modifies this
      ensures present == !Level(old(levels), 0)
      ensures levels == Consumed(old(levels), 1)
      ensures trace == old(trace) + [ResetPulse]
    {
      present := Reset();
    }

    /** Starts a conversion, waits for it, and reads the first two scratchpad
        bytes; returns the temperature in sixteenths of a degree, or the
        sentinel as soon as a reset finds no sensor. */
    method ReadTemperature() returns (t: int)
      modifies this
      ensures t == TemperatureFrom(old(levels))
      ensures Level(old(levels), 0) ==>
        trace == old(trace) + [ResetPulse] && levels == Consumed(old(levels), 1)
      ensures !Level(old(levels), 0) && Level(old(levels), 1) ==>
        trace == old(trace) + [ResetPulse] + ByteWrite(SKIP_ROM) + ByteWrite(CONVERT_T)
                 + [ConversionWait, ResetPulse]
        && levels == Consumed(old(levels), 2)
      ensures !Level(old(levels), 0) && !Level(old(levels), 1) ==>
        trace == old(trace) + [ResetPulse] + ByteWrite(SKIP_ROM) + ByteWrite(CONVERT_T)
                 + [ConversionWait, ResetPulse] + ByteWrite(SKIP_ROM) + ByteWrite(READ_SCRATCHPAD)
                 + ReadSlots(16)
        && levels == Consumed(old(levels), 18)
    {
      ghost var line := levels;
      var present := Reset();
      if !present {
        return NO_SENSOR;
      }
      WriteByte(SKIP_ROM);
      WriteByte(CONVERT_T);
      trace := trace + [ConversionWait];
      LevelAfter(line, 1, 0);
      present := Reset();
      ConsumedTwice(line, 1, 1);
      if !present {
        return NO_SENSOR;
      }
      WriteByte(SKIP_ROM);
      WriteByte(READ_SCRATCHPAD);
      var lsb := ReadByte();
      ConsumedTwice(line, 2, 8);
      var msb := ReadByte();
      ConsumedTwice(line, 10, 8);
      assert ReadSlots(8) + ReadSlots(8) == ReadSlots(16);
      t := Int16(msb, lsb);
    }
  }
}
