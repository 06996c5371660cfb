/** Decoders for the three notification payloads. Each is total over byte
    strings of any length: absent or short input yields zero, never an error,
    as the client treats a malformed payload as "reading 0". */
module Decoders {
  import opened Common

  /** The byte at index `i`, or 0 when the payload is too short
      (`data.getOrNull(i)?.toUByte()?.toInt() ?: 0`). */
  function ByteOrZero(data: seq<uint8>, i: nat): uint8 {
    if i < |data| then data[i] else 0
  }

  /** Bit 0 of the flags byte of a Heart Rate Measurement (section 3.1 of the
      Bluetooth Heart Rate Service specification): set when the value is a
      16-bit field. Sign extension of the byte does not change bit 0. */
  predicate IsWideHeartRate(flags: uint8) {
    flags % 2 == 1
  }

  /** Heart rate in beats per minute from a Heart Rate Measurement payload. */
  function ParseHeartRate(data: seq<uint8>): (bpm: nat)
    ensures |data| == 0 ==> bpm == 0
    ensures bpm < 0x1_0000
    ensures |data| > 0 && !IsWideHeartRate(data[0]) ==> bpm < 0x100
  {
    if |data| == 0 then 0
    else if !IsWideHeartRate(data[0]) then ByteOrZero(data, 1)
    else ByteOrZero(data, 2) * 0x100 + ByteOrZero(data, 1)
  }

  /** The payload a sensor sends for `bpm` in the 8-bit format. */
  function EncodeHeartRate8(bpm: uint8): (data: seq<uint8>)
    ensures |data| == 2 && !IsWideHeartRate(data[0])
  {
    [0x00, bpm]
  }

  /** The payload a sensor sends for `bpm` in the 16-bit little-endian format. */
  function EncodeHeartRate16(bpm: nat): (data: seq<uint8>)
    requires bpm < 0x1_0000
    ensures |data| == 3 && IsWideHeartRate(data[0])
  {
    [0x01, bpm % 0x100, bpm / 0x100]
  }

  /** An 8-bit reading decodes to its value whatever the other flag bits and
      whatever follows it. */
  lemma HeartRate8RoundTrip(flags: uint8, bpm: uint8, rest: seq<uint8>)
    requires !IsWideHeartRate(flags)
    ensures ParseHeartRate([flags, bpm] + rest) == bpm
    ensures ParseHeartRate(EncodeHeartRate8(bpm)) == bpm
  {
  }

  /** A 16-bit reading decodes to its value whatever the other flag bits and
      whatever follows it. */
  lemma HeartRate16RoundTrip(flags: uint8, bpm: nat, rest: seq<uint8>)
    requires IsWideHeartRate(flags) && bpm < 0x1_0000
    ensures ParseHeartRate([flags, bpm % 0x100, bpm / 0x100] + rest) == bpm
    ensures ParseHeartRate(EncodeHeartRate16(bpm)) == bpm
  {
  }

  /** Only the first three bytes matter. */
  lemma HeartRateIgnoresTail(data: seq<uint8>, rest: seq<uint8>)
    requires |data| >= 3
    ensures ParseHeartRate(data + rest) == ParseHeartRate(data)
  {
  }

  /** A missing value byte reads as 0 instead of rejecting the payload: a
      short payload decodes as if padded with zero bytes. */
  lemma HeartRateShortPadsWithZero(data: seq<uint8>)
    requires 1 <= |data| < 3
    ensures ParseHeartRate(data) == ParseHeartRate(data + seq(3 - |data|, _ => 0))
  {
  }

  /** Worked payloads: a flags byte announcing a 16-bit value followed by only
      one byte still yields that byte; a lone flags byte yields 0. */
  lemma HeartRateExamples()
    ensures ParseHeartRate([0x00, 0x4B]) == 75
    ensures ParseHeartRate([0x01, 0x4B, 0x00]) == 75
    ensures ParseHeartRate([0x01, 0x01, 0x01]) == 257
    ensures ParseHeartRate([0x01, 0x4B]) == 75
    ensures ParseHeartRate([0x01]) == 0
    ensures ParseHeartRate([0x00]) == 0
  {
  }

  /** A temperature reading. The 2- and 3-byte payloads carry a signed count of
      hundredths of a degree Celsius (Temperature characteristic 0x2A6E).
      Payloads of four bytes or more carry a 32-bit IEEE-754 float, kept here
      as its raw bit pattern, the little-endian word of the first four bytes. */
  datatype Temperature = Centi(hundredths: int) | Float32Bits(word: nat)

  /** The reading a fresh or reset session holds (0.0 degrees). */
  const ZeroTemperature: Temperature := Centi(0)

  predicate IsSint16(v: int) {
    -0x8000 <= v < 0x8000
  }

  /** `ByteBuffer.order(LITTLE_ENDIAN).short` on the first two bytes. */
  function Sint16LE(lo: uint8, hi: uint8): (v: int)
    ensures IsSint16(v)
  {
    var raw := hi * 0x100 + lo;
    if raw < 0x8000 then raw else raw - 0x1_0000
  }

  /** `ByteBuffer.order(LITTLE_ENDIAN).float` bits: the first four bytes as
      a little-endian 32-bit word. */
  function Word32LE(b0: uint8, b1: uint8, b2: uint8, b3: uint8): (w: nat)
    ensures w < 0x1_0000_0000
  {
    ((b3 * 0x100 + b2) * 0x100 + b1) * 0x100 + b0
  }

  /** Splitting a 32-bit word into four little-endian bytes and reading them
      back gives the word. */
  lemma Word32RoundTrip(w: nat)
    requires w < 0x1_0000_0000
    ensures Word32LE(w % 0x100, w / 0x100 % 0x100, w / 0x1_0000 % 0x100, w / 0x100_0000) == w
  {
    var q1 := w / 0x100;
    var q2 := q1 / 0x100;
    var q3 := q2 / 0x100;
    assert w == q1 * 0x100 + w % 0x100;
    assert q1 == q2 * 0x100 + q1 % 0x100;
    assert q2 == q3 * 0x100 + q2 % 0x100;
    assert q2 == w / 0x1_0000;
    assert q3 == w / 0x100_0000;
  }

  /** Each of the four bytes can be read back from the word at its
      little-endian position. */
  lemma Word32Bytes(b0: uint8, b1: uint8, b2: uint8, b3: uint8)
    ensures var w := Word32LE(b0, b1, b2, b3);
      && w % 0x100 == b0 && w / 0x100 % 0x100 == b1
      && w / 0x1_0000 % 0x100 == b2 && w / 0x100_0000 == b3
  {
  }

  function ParseTemperature(data: seq<uint8>): (t: Temperature)
    ensures |data| < 2 ==> t == ZeroTemperature
    ensures 2 <= |data| < 4 ==> t.Centi? && IsSint16(t.hundredths)
    ensures |data| >= 4 ==> t.Float32Bits? && t.word < 0x1_0000_0000
  {
    if |data| >= 4 then Float32Bits(Word32LE(data[0], data[1], data[2], data[3]))
    else if |data| >= 2 then Centi(Sint16LE(data[0], data[1]))
    else ZeroTemperature
  }

  /** A signed 16-bit count of hundredths as two little-endian bytes. */
  function EncodeTemperature(v: int): (data: seq<uint8>)
    requires IsSint16(v)
    ensures |data| == 2
  {
    var raw := if v < 0 then v + 0x1_0000 else v;
    [raw % 0x100, raw / 0x100]
  }

  /** Encoding a temperature and decoding it gives it back, also when a third
      byte follows. */
  lemma TemperatureRoundTrip(v: int, rest: seq<uint8>)
    requires IsSint16(v) && |rest| <= 1
    ensures ParseTemperature(EncodeTemperature(v) + rest) == Centi(v)
  {
  }

  /** Every 2-byte payload is the encoding of the reading it decodes to, so the
      2-byte decoder is a bijection onto the signed 16-bit range. */
  lemma TemperatureBytesRoundTrip(data: seq<uint8>)
    requires |data| == 2
    ensures EncodeTemperature(ParseTemperature(data).hundredths) == data
  {
  }

  /** Worked payloads: 23.50 degrees, -5.50 degrees, and too-short input. */
  lemma TemperatureExamples()
    ensures ParseTemperature([0x2E, 0x09]) == Centi(2350)
    ensures ParseTemperature([0x2E, 0x09, 0xFF]) == Centi(2350)
    ensures ParseTemperature([0xDA, 0xFD]) == Centi(-550)
    ensures ParseTemperature([0x2E]) == ZeroTemperature
    ensures ParseTemperature([]) == ZeroTemperature
  {
  }

  /** SpO2 percentage: byte 0 read unsigned, with no clamping to 100. */
  function ParseSpO2(data: seq<uint8>): (percent: nat)
    ensures |data| == 0 ==> percent == 0
    ensures percent < 0x100
  {
    if |data| == 0 then 0 else data[0]
  }

  /** Byte 0 is the reading and later bytes are ignored. */
  lemma SpO2RoundTrip(percent: uint8, rest: seq<uint8>)
    ensures ParseSpO2([percent] + rest) == percent
  {
  }

  /** Worked payloads: 98 percent, an out-of-range 255 passed through unchanged,
      and the empty payload. */
  lemma SpO2Examples()
    ensures ParseSpO2([0x62]) == 98
    ensures ParseSpO2([0xFF, 0x62]) == 255
    ensures ParseSpO2([]) == 0
  {
  }
}
