/**
  The stored configuration records (runtime_config.c): their byte layout, their validity checks, their
  defaults and their migration. The layout is that of the packed structs on a little-endian
  target: 28 bytes with the CRC last for version 2, 24 bytes with the checksum last for version 1.
*/
module ConfigRecord {
  import opened Words
  import C = Crc32
  import V = V1Checksum

  type Half = h: nat | h < 0x1_0000

  const CONFIG_MAGIC: Word := 0x43464732
  const CONFIG_V1_MAGIC: Word := 0x43464731
  const SCHEMA_VERSION: Half := 2
  const CONFIG_SIZE: nat := 28
  const CONFIG_V1_SIZE: nat := 24

  datatype Config = Config(magic: Word, version: Half, size: Half, tempThreshold: Byte, lowVoltageDecivolts: Byte,
                           flags: Half, diagnosticPeriodMs: Word, framePeriodMs: Word, bootCount: Word, crc32: Word)

  datatype ConfigV1 = ConfigV1(magic: Word, version: Half, tempThreshold: Byte, lowVoltageDecivolts: Byte,
                               diagnosticPeriodMs: Word, framePeriodMs: Word, bootCount: Word, checksum: Word)

  // ---- Layout ----

  /** The 16-bit and 32-bit numbers at offset `i`. */
  function Word16(b: seq<Byte>, i: nat): Half
    requires i + 2 <= |b|
  {
    var b0: nat, b1: nat := b[i], b[i + 1];
    b0 + 256 * b1
  }

  function Word32(b: seq<Byte>, i: nat): Word
    requires i + 4 <= |b|
  {
    var b0: nat, b1: nat, b2: nat, b3: nat := b[i], b[i + 1], b[i + 2], b[i + 3];
    b0 + 256 * b1 + 0x1_0000 * b2 + 0x100_0000 * b3
  }

  lemma HalfAt(b: seq<Byte>, i: nat, h: Half)
    requires i + 2 <= |b|
    ensures Word16(b, i) == h <==> b[i..i + 2] == LittleEndian(h, 2)
  {
    assert ByteAt(h, 1) == ByteAt(h / 256, 0) && h / 256 % 256 == h / 256;
    assert LittleEndian(h, 2) == [h % 256, h / 256];
    assert b[i..i + 2] == [b[i], b[i + 1]];
  }

  lemma WordAt(b: seq<Byte>, i: nat, w: Word)
    requires i + 4 <= |b|
    ensures Word32(b, i) == w <==> b[i..i + 4] == LittleEndian(w, 4)
  {
    FourBytes(w);
    assert b[i..i + 4] == [b[i], b[i + 1], b[i + 2], b[i + 3]];
    WordDigits(b[i], b[i + 1], b[i + 2], b[i + 3], w);
  }

  lemma LowDigit(b: nat, q: nat, x: nat)
    requires b < 256
    ensures b + 256 * q == x <==> b == x % 256 && q == x / 256
  {
  }

  lemma WordDigits(b0: nat, b1: nat, b2: nat, b3: nat, w: Word)
    requires b0 < 256 && b1 < 256 && b2 < 256 && b3 < 256
    ensures b0 + 256 * b1 + 0x1_0000 * b2 + 0x100_0000 * b3 == w
            <==> b0 == w % 256 && b1 == w / 256 % 256 && b2 == w / 0x1_0000 % 256 && b3 == w / 0x100_0000
  {
    assert w / 256 / 256 == w / 0x1_0000 && w / 0x1_0000 / 256 == w / 0x100_0000;
    LowDigit(b0, b1 + 256 * (b2 + 256 * b3), w);
    LowDigit(b1, b2 + 256 * b3, w / 256);
    LowDigit(b2, b3, w / 0x1_0000);
  }

  /** The bytes the CRC covers: all fields but the last. */
  function Body(c: Config): (r: seq<Byte>)
    ensures |r| == 24
  {
    LittleEndian(c.magic, 4) + LittleEndian(c.version, 2) + LittleEndian(c.size, 2)
    + [c.tempThreshold] + [c.lowVoltageDecivolts] + LittleEndian(c.flags, 2)
    + LittleEndian(c.diagnosticPeriodMs, 4) + LittleEndian(c.framePeriodMs, 4) + LittleEndian(c.bootCount, 4)
  }

  function Encode(c: Config): (r: seq<Byte>)
    ensures |r| == CONFIG_SIZE
  {
    Body(c) + LittleEndian(c.crc32, 4)
  }

  function Decode(b: seq<Byte>): Config
    requires |b| == CONFIG_SIZE
  {
    Config(Word32(b, 0), Word16(b, 4), Word16(b, 6), b[8], b[9], Word16(b, 10),
           Word32(b, 12), Word32(b, 16), Word32(b, 20), Word32(b, 24))
  }

  function BodyV1(c: ConfigV1): (r: seq<Byte>)
    ensures |r| == 20
  {
    LittleEndian(c.magic, 4) + LittleEndian(c.version, 2) + [c.tempThreshold] + [c.lowVoltageDecivolts]
    + LittleEndian(c.diagnosticPeriodMs, 4) + LittleEndian(c.framePeriodMs, 4) + LittleEndian(c.bootCount, 4)
  }

  function EncodeV1(c: ConfigV1): (r: seq<Byte>)
    ensures |r| == CONFIG_V1_SIZE
  {
    BodyV1(c) + LittleEndian(c.checksum, 4)
  }

  function DecodeV1(b: seq<Byte>): ConfigV1
    requires |b| == CONFIG_V1_SIZE
  {
    ConfigV1(Word32(b, 0), Word16(b, 4), b[6], b[7], Word32(b, 8), Word32(b, 12), Word32(b, 16), Word32(b, 20))
  }

  lemma EncodeParts(c: Config)
    ensures var b := Encode(c);
            && b[0..4] == LittleEndian(c.magic, 4) && b[4..6] == LittleEndian(c.version, 2)
            && b[6..8] == LittleEndian(c.size, 2)
            && b[8] == c.tempThreshold && b[9] == c.lowVoltageDecivolts && b[10..12] == LittleEndian(c.flags, 2)
            && b[12..16] == LittleEndian(c.diagnosticPeriodMs, 4) && b[16..20] == LittleEndian(c.framePeriodMs, 4)
            && b[20..24] == LittleEndian(c.bootCount, 4) && b[24..28] == LittleEndian(c.crc32, 4) && b[..24] == Body(c)
  {
  }

  lemma EncodeV1Parts(c: ConfigV1)
    ensures var b := EncodeV1(c);
            && b[0..4] == LittleEndian(c.magic, 4) && b[4..6] == LittleEndian(c.version, 2)
            && b[6] == c.tempThreshold && b[7] == c.lowVoltageDecivolts
            && b[8..12] == LittleEndian(c.diagnosticPeriodMs, 4) && b[12..16] == LittleEndian(c.framePeriodMs, 4)
            && b[16..20] == LittleEndian(c.bootCount, 4) && b[20..24] == LittleEndian(c.checksum, 4)
            && b[..20] == BodyV1(c)
  {
  }

  /** A record survives being written and read, field for field. */
  lemma DecodeEncode(c: Config)
    ensures Decode(Encode(c)) == c
  {
    var b := Encode(c);
    EncodeParts(c);
    WordAt(b, 0, c.magic);
    HalfAt(b, 4, c.version);
    HalfAt(b, 6, c.size);
    HalfAt(b, 10, c.flags);
    WordAt(b, 12, c.diagnosticPeriodMs);
    WordAt(b, 16, c.framePeriodMs);
    WordAt(b, 20, c.bootCount);
    WordAt(b, 24, c.crc32);
  }

  lemma DecodeEncodeV1(c: ConfigV1)
    ensures DecodeV1(EncodeV1(c)) == c
  {
    var b := EncodeV1(c);
    EncodeV1Parts(c);
    WordAt(b, 0, c.magic);
    HalfAt(b, 4, c.version);
    WordAt(b, 8, c.diagnosticPeriodMs);
    WordAt(b, 12, c.framePeriodMs);
    WordAt(b, 16, c.bootCount);
    WordAt(b, 20, c.checksum);
  }

  /** Every string of the right length is the encoding of what it decodes to. */
  lemma EncodeDecode(b: seq<Byte>)
    requires |b| == CONFIG_SIZE
    ensures Encode(Decode(b)) == b
  {
    var c := Decode(b);
    WordAt(b, 0, c.magic);
    HalfAt(b, 4, c.version);
    HalfAt(b, 6, c.size);
    HalfAt(b, 10, c.flags);
    WordAt(b, 12, c.diagnosticPeriodMs);
    WordAt(b, 16, c.framePeriodMs);
    WordAt(b, 20, c.bootCount);
    WordAt(b, 24, c.crc32);
    assert b == b[0..4] + b[4..6] + b[6..8] + [b[8]] + [b[9]] + b[10..12] + b[12..16] + b[16..20] + b[20..24]
             + b[24..28];
  }

  lemma EncodeDecodeV1(b: seq<Byte>)
    requires |b| == CONFIG_V1_SIZE
    ensures EncodeV1(DecodeV1(b)) == b
  {
    var c := DecodeV1(b);
    WordAt(b, 0, c.magic);
    HalfAt(b, 4, c.version);
    WordAt(b, 8, c.diagnosticPeriodMs);
    WordAt(b, 12, c.framePeriodMs);
    WordAt(b, 16, c.bootCount);
    WordAt(b, 20, c.checksum);
    assert b == b[0..4] + b[4..6] + [b[6]] + [b[7]] + b[8..12] + b[12..16] + b[16..20] + b[20..24];
  }

  // ---- Validity, defaults and migration ----

  predicate IsValid(c: Config) {
    c.magic == CONFIG_MAGIC && c.version == SCHEMA_VERSION && c.size == CONFIG_SIZE && c.crc32 == C.Crc(Body(c))
  }

  function WithCrc(c: Config): Config {
    c.(crc32 := C.Crc(Body(c)))
  }

  function Defaults(): Config {
    WithCrc(Config(CONFIG_MAGIC, SCHEMA_VERSION, CONFIG_SIZE, 35, 33, 0, 5000, 2800, 0, 0))
  }

  predicate IsValidV1(c: ConfigV1) {
    c.magic == CONFIG_V1_MAGIC && c.version == 1 && c.checksum == V.Checksum(BodyV1(c))
  }

  function Migrated(c: ConfigV1): Config {
    WithCrc(Defaults().(tempThreshold := c.tempThreshold, lowVoltageDecivolts := c.lowVoltageDecivolts,
                        diagnosticPeriodMs := c.diagnosticPeriodMs, framePeriodMs := c.framePeriodMs,
                        bootCount := c.bootCount))
  }

  /** The CRC does not cover itself. */
  lemma WithCrcValid(c: Config)
    requires c.magic == CONFIG_MAGIC && c.version == SCHEMA_VERSION && c.size == CONFIG_SIZE
    ensures IsValid(WithCrc(c))
  {
    assert Body(WithCrc(c)) == Body(c);
  }

  /** A migrated record is a valid version 2 record with the five shared fields of the old one. */
  lemma MigrationPreserves(old1: ConfigV1)
    ensures var c := Migrated(old1);
            && IsValid(c) && c.flags == 0 && c.tempThreshold == old1.tempThreshold
            && c.lowVoltageDecivolts == old1.lowVoltageDecivolts
            && c.diagnosticPeriodMs == old1.diagnosticPeriodMs && c.framePeriodMs == old1.framePeriodMs
            && c.bootCount == old1.bootCount
  {
    WithCrcValid(Defaults().(tempThreshold := old1.tempThreshold, lowVoltageDecivolts := old1.lowVoltageDecivolts,
                             diagnosticPeriodMs := old1.diagnosticPeriodMs, framePeriodMs := old1.framePeriodMs,
                             bootCount := old1.bootCount));
  }

  /** The values a device starts from when storage gives none, with `boots` boots counted. */
  predicate FactorySettings(c: Config, boots: nat) {
    && c.tempThreshold == 35 && c.lowVoltageDecivolts == 33 && c.flags == 0
    && c.diagnosticPeriodMs == 5000 && c.framePeriodMs == 2800 && c.bootCount == boots
  }

  lemma DefaultsAreFactorySettings()
    ensures IsValid(Defaults()) && FactorySettings(Defaults(), 0)
  {
    WithCrcValid(Config(CONFIG_MAGIC, SCHEMA_VERSION, CONFIG_SIZE, 35, 33, 0, 5000, 2800, 0, 0));
  }

  // ---- Validity, read off the bytes ----

  /** "2GFC", version 2, size 28, and the CRC of the first 24 bytes in the last four. */
  predicate IntactBytes(b: seq<Byte>) {
    && |b| == 28 && b[0..4] == [0x32, 0x47, 0x46, 0x43] && b[4..6] == [2, 0] && b[6..8] == [28, 0]
    && b[24..28] == LittleEndian(C.Crc(b[..24]), 4)
  }

  /** "1GFC", version 1, and the checksum of the first 20 bytes in the last four. */
  predicate IntactBytesV1(b: seq<Byte>) {
    && |b| == 24 && b[0..4] == [0x31, 0x47, 0x46, 0x43] && b[4..6] == [1, 0]
    && b[20..24] == LittleEndian(V.Checksum(b[..20]), 4)
  }

  lemma MagicBytes()
    ensures LittleEndian(CONFIG_MAGIC, 4) == [0x32, 0x47, 0x46, 0x43]
    ensures LittleEndian(CONFIG_V1_MAGIC, 4) == [0x31, 0x47, 0x46, 0x43]
  {
    FourBytes(CONFIG_MAGIC);
    FourBytes(CONFIG_V1_MAGIC);
  }

  lemma SmallHalf(h: Half)
    requires h < 256
    ensures LittleEndian(h, 2) == [h, 0]
  {
    assert ByteAt(h, 1) == ByteAt(h / 256, 0) && h / 256 == 0;
  }

  lemma ValidIffIntact(b: seq<Byte>)
    requires |b| == CONFIG_SIZE
    ensures IsValid(Decode(b)) <==> IntactBytes(b)
  {
    var c := Decode(b);
    EncodeDecode(b);
    EncodeParts(c);
    MagicBytes();
    SmallHalf(SCHEMA_VERSION);
    SmallHalf(CONFIG_SIZE);
    WordAt(b, 0, CONFIG_MAGIC);
    HalfAt(b, 4, SCHEMA_VERSION);
    HalfAt(b, 6, CONFIG_SIZE);
    WordAt(b, 24, C.Crc(b[..24]));
  }

  lemma ValidIffIntactV1(b: seq<Byte>)
    requires |b| == CONFIG_V1_SIZE
    ensures IsValidV1(DecodeV1(b)) <==> IntactBytesV1(b)
  {
    var c := DecodeV1(b);
    EncodeDecodeV1(b);
    EncodeV1Parts(c);
    MagicBytes();
    SmallHalf(1);
    WordAt(b, 0, CONFIG_V1_MAGIC);
    HalfAt(b, 4, 1);
    WordAt(b, 20, V.Checksum(b[..20]));
  }

  /** A migrated record, byte for byte. */
  lemma MigratedBytes(b: seq<Byte>)
    requires |b| == CONFIG_V1_SIZE
    ensures var r := Encode(Migrated(DecodeV1(b)));
            IntactBytes(r) && r[8] == b[6] && r[9] == b[7] && r[10..12] == [0, 0] && r[12..24] == b[8..20]
  {
    var old1 := DecodeV1(b);
    var c := Migrated(old1);
    var r := Encode(c);
    MigrationPreserves(old1);
    DecodeEncode(c);
    ValidIffIntact(r);
    EncodeParts(c);
    EncodeDecodeV1(b);
    EncodeV1Parts(old1);
    SmallHalf(0);
    assert r[12..24] == r[12..16] + r[16..20] + r[20..24] && b[8..20] == b[8..12] + b[12..16] + b[16..20];
  }
}
