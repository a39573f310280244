/**
  The store of the persistent configuration (runtime_config.c, storage_backend_posix.c): what a boot makes
  of storage, the settings, and saving. Storage is one byte string, absent until the first write; opening
  the file for writing truncates it, so a save that is cut short leaves a prefix.
*/
module ConfigStore {
  import opened Common
  import opened Words
  import opened ConfigRecord
  import opened ConfigDamage
  import G = Gf2
  import T = TwoBits
  import C = Crc32
  import V = V1Checksum

  datatype Nvm = Missing | Stored(bytes: seq<Byte>)

  /** How one write to storage ends: completely, not at all, or after a proper prefix. */
  datatype Outcome = Written | NotOpened | CutAfter(n: nat)

  predicate Possible(o: Outcome) {
    o.CutAfter? ==> o.n < CONFIG_SIZE
  }

  function AfterWrite(nvm: Nvm, bytes: seq<Byte>, o: Outcome): Nvm
    requires Possible(o) && |bytes| == CONFIG_SIZE
  {
    match o
    case Written => Stored(bytes)
    case NotOpened => nvm
    case CutAfter(n) => Stored(bytes[..n])
  }

  // ---- What a boot makes of storage ----

  /** The bytes ReadConfig gets into its 28-byte buffer. */
  function ReadBytes(nvm: Nvm): seq<Byte> {
    if nvm.Missing? then [] else if |nvm.bytes| <= CONFIG_SIZE then nvm.bytes else nvm.bytes[..CONFIG_SIZE]
  }

  function Load(nvm: Nvm): Config {
    var raw := ReadBytes(nvm);
    if |raw| == CONFIG_SIZE && IsValid(Decode(raw)) then Decode(raw)
    else if |raw| == CONFIG_V1_SIZE && IsValidV1(DecodeV1(raw)) then Migrated(DecodeV1(raw))
    else Defaults()
  }

  /** The configuration with one more boot counted. */
  function OneBootOn(c: Config): Config {
    c.(bootCount := (c.bootCount + 1) % U32)
  }

  /** The fields Config_Save stamps before it writes. */
  function Stamped(c: Config): Config {
    WithCrc(c.(size := CONFIG_SIZE, version := SCHEMA_VERSION, magic := CONFIG_MAGIC))
  }

  // ---- Settings ----

  datatype Setting = TempThreshold(t: Byte) | LowVoltage(v: Byte) | DiagnosticPeriod(d: Word) | FramePeriod(f: Word)

  predicate Acceptable(s: Setting) {
    match s
    case TempThreshold(t) => 5 <= t <= 80
    case LowVoltage(v) => 20 <= v <= 50
    case DiagnosticPeriod(d) => 1000 <= d <= 60000
    case FramePeriod(f) => 500 <= f <= 30000
  }

  function Applied(c: Config, s: Setting): Config {
    match s
    case TempThreshold(t) => c.(tempThreshold := t)
    case LowVoltage(v) => c.(lowVoltageDecivolts := v)
    case DiagnosticPeriod(d) => c.(diagnosticPeriodMs := d)
    case FramePeriod(f) => c.(framePeriodMs := f)
  }

  predicate InRange(c: Config) {
    5 <= c.tempThreshold <= 80 && 20 <= c.lowVoltageDecivolts <= 50
    && 1000 <= c.diagnosticPeriodMs <= 60000 && 500 <= c.framePeriodMs <= 30000
  }

  // ---- The store itself ----

  class Store {
    var config: Config
    var nvm: Nvm

    constructor (nvm: Nvm)
      ensures this.nvm == nvm
    {
      this.nvm := nvm;
      this.config := Defaults();
    }

    method WriteConfig(bytes: seq<Byte>, o: Outcome) returns (ok: bool)
      requires Possible(o) && |bytes| == CONFIG_SIZE
      modifies this`nvm
      ensures nvm == AfterWrite(old(nvm), bytes, o) && ok == o.Written?
    {
      match o {
        case Written => nvm := Stored(bytes);
        case NotOpened =>
        case CutAfter(n) => nvm := Stored(bytes[..n]);
      }
      ok := o.Written?;
    }

    method UpdateCrc()
      modifies this`config
      ensures config == WithCrc(old(config))
    {
      var crc := C.Compute(Body(config));
      config := config.(crc32 := crc);
    }

    method Save(o: Outcome) returns (ok: bool)
      requires Possible(o)
      modifies this
      ensures config == Stamped(old(config)) && nvm == AfterWrite(old(nvm), Encode(config), o) && ok == o.Written?
    {
      config := config.(size := CONFIG_SIZE);
      config := config.(version := SCHEMA_VERSION);
      config := config.(magic := CONFIG_MAGIC);
      UpdateCrc();
      ok := WriteConfig(Encode(config), o);
    }

    method LoadDefaults()
      modifies this`config
      ensures config == Defaults() && IsValid(config) && FactorySettings(config, 0)
    {
      DefaultsAreFactorySettings();
      config := Config(CONFIG_MAGIC, SCHEMA_VERSION, CONFIG_SIZE, 35, 33, 0, 5000, 2800, 0, 0);
      UpdateCrc();
    }

    method MigrateV1(oldConfig: ConfigV1) returns (ok: bool)
      modifies this`config
      ensures ok == IsValidV1(oldConfig)
      ensures config == if ok then Migrated(oldConfig) else old(config)
    {
      if oldConfig.magic != CONFIG_V1_MAGIC || oldConfig.version != 1 {
        return false;
      }
      var sum := V.Compute(BodyV1(oldConfig));
      if oldConfig.checksum != sum {
        return false;
      }
      LoadDefaults();
      config := config.(tempThreshold := oldConfig.tempThreshold);
      config := config.(lowVoltageDecivolts := oldConfig.lowVoltageDecivolts);
      config := config.(diagnosticPeriodMs := oldConfig.diagnosticPeriodMs);
      config := config.(framePeriodMs := oldConfig.framePeriodMs);
      config := config.(bootCount := oldConfig.bootCount);
      UpdateCrc();
      return true;
    }

    /** The loading part of Config_Init. */
    method LoadStored()
      modifies this`config
      ensures config == Load(nvm)
    {
      var raw := ReadBytes(nvm);
      var loaded := false;
      if |raw| == CONFIG_SIZE {
        var candidate := Decode(raw);
        if candidate.magic == CONFIG_MAGIC && candidate.version == SCHEMA_VERSION && candidate.size == CONFIG_SIZE {
          var crc := C.Compute(Body(candidate));
          if candidate.crc32 == crc {
            config := candidate;
            loaded := true;
          }
        }
      } else if |raw| == CONFIG_V1_SIZE {
        loaded := MigrateV1(DecodeV1(raw));
      }
      if !loaded {
        LoadDefaults();
      }
    }

    method Init(o: Outcome)
      requires Possible(o)
      modifies this
      ensures config == Stamped(OneBootOn(Load(old(nvm)))) && nvm == AfterWrite(old(nvm), Encode(config), o)
      ensures IsValid(config) && (old(nvm) == Missing ==> FactorySettings(config, 1))
    {
      LoadValid(nvm);
      StampingAddsCrc(Load(nvm));
      if nvm == Missing {
        FactoryBoot(Load(nvm));
      }
      LoadStored();
      config := config.(bootCount := (config.bootCount + 1) % U32);
      UpdateCrc();
      var _ := Save(o);
    }

    /** The four setters: a value out of range changes nothing and writes nothing. */
    method Set(s: Setting, o: Outcome) returns (ok: bool)
      requires Possible(o)
      modifies this
      ensures config == if Acceptable(s) then Stamped(Applied(old(config), s)) else old(config)
      ensures nvm == if Acceptable(s) then AfterWrite(old(nvm), Encode(config), o) else old(nvm)
      ensures ok == (Acceptable(s) && o.Written?)
    {
      match s {
        case TempThreshold(t) =>
          if t < 5 || t > 80 { return false; }
          config := config.(tempThreshold := t);
        case LowVoltage(v) =>
          if v < 20 || v > 50 { return false; }
          config := config.(lowVoltageDecivolts := v);
        case DiagnosticPeriod(d) =>
          if d < 1000 || d > 60000 { return false; }
          config := config.(diagnosticPeriodMs := d);
        case FramePeriod(f) =>
          if f < 500 || f > 30000 { return false; }
          config := config.(framePeriodMs := f);
      }
      UpdateCrc();
      ok := Save(o);
    }
  }

  // ---- What loads ----

  /** Every storage content at all, byte by byte. An intact record is loaded as it is. An intact version 1
      record gives its five fields, and zero flags, in a valid new record. Anything else, missing or cut or
      damaged, gives the factory settings. */
  lemma LoadedByBytes(nvm: Nvm)
    ensures IsValid(Load(nvm))
    ensures var raw, r := ReadBytes(nvm), Encode(Load(nvm));
            if IntactBytes(raw) then r == raw
            else if IntactBytesV1(raw) then
              IntactBytes(r) && r[8] == raw[6] && r[9] == raw[7] && r[10..12] == [0, 0] && r[12..24] == raw[8..20]
            else FactorySettings(Load(nvm), 0)
  {
    var raw := ReadBytes(nvm);
    LoadValid(nvm);
    DefaultsAreFactorySettings();
    if |raw| == CONFIG_SIZE {
      ValidIffIntact(raw);
      EncodeDecode(raw);
    } else if |raw| == CONFIG_V1_SIZE {
      ValidIffIntactV1(raw);
      MigratedBytes(raw);
    }
  }

  /** The setters accept exactly what keeps a record in range that was in range. */
  lemma AcceptableIffInRange(c: Config, s: Setting)
    requires InRange(c)
    ensures Acceptable(s) <==> InRange(Applied(c, s))
  {
  }

  // ---- What loads back ----

  lemma StampedValid(c: Config)
    ensures IsValid(Stamped(c))
    ensures Stamped(c).(crc32 := 0)
              == c.(size := CONFIG_SIZE, version := SCHEMA_VERSION, magic := CONFIG_MAGIC, crc32 := 0)
  {
    WithCrcValid(c.(size := CONFIG_SIZE, version := SCHEMA_VERSION, magic := CONFIG_MAGIC));
  }

  lemma LoadValid(nvm: Nvm)
    ensures IsValid(Load(nvm))
  {
    var raw := ReadBytes(nvm);
    WithCrcValid(Defaults());
    if |raw| == CONFIG_V1_SIZE {
      MigrationPreserves(DecodeV1(raw));
    }
  }

  lemma PrefixIsNoRecord(c: Config, n: nat)
    requires IsValid(c) && n < CONFIG_SIZE
    ensures Load(Stored(Encode(c)[..n])) == Defaults()
  {
    var raw := Encode(c)[..n];
    if n == CONFIG_V1_SIZE {
      EncodeParts(c);
      assert raw[0..4] == Encode(c)[0..4];
      WordAt(raw, 0, c.magic);
      assert DecodeV1(raw).magic == CONFIG_MAGIC;
    }
  }

  /** A complete record loads back exactly; a proper prefix, of whatever length, loads as the defaults. */
  lemma LoadAfterSave(c: Config, n: nat)
    requires IsValid(c) && n <= CONFIG_SIZE
    ensures Load(Stored(Encode(c)[..n])) == if n == CONFIG_SIZE then c else Defaults()
  {
    if n == CONFIG_SIZE {
      assert Encode(c)[..n] == Encode(c);
      DecodeEncode(c);
    } else {
      PrefixIsNoRecord(c, n);
    }
  }

  lemma StampingAddsCrc(c: Config)
    requires IsValid(c)
    ensures Stamped(OneBootOn(c)) == WithCrc(OneBootOn(c)) && IsValid(WithCrc(OneBootOn(c)))
  {
    WithCrcValid(OneBootOn(c));
  }

  /** A boot from defaults runs with the factory settings. */
  lemma FactoryBoot(c: Config)
    requires c == Defaults()
    ensures IsValid(c) && Stamped(OneBootOn(c)) == WithCrc(OneBootOn(c))
    ensures IsValid(Stamped(OneBootOn(c))) && FactorySettings(Stamped(OneBootOn(c)), 1)
  {
    DefaultsAreFactorySettings();
    StampingAddsCrc(c);
    OneBootFromFactory(c);
  }

  lemma OneBootFromFactory(c: Config)
    requires FactorySettings(c, 0)
    ensures FactorySettings(Stamped(OneBootOn(c)), 1)
  {
  }

  // ---- Values and corruption ----

  /** Storage that is missing, or that no check accepts, starts from defaults, which are in range ... */
  lemma DefaultsInRange()
    ensures InRange(Defaults()) && Load(Missing) == Defaults()
  {
  }

  /** ... but a record with a good CRC is believed whatever its values. */
  lemma LoadedValuesAreNotChecked()
    ensures var nvm := Stored(Encode(WithCrc(Defaults().(tempThreshold := 200))));
            Load(nvm).tempThreshold == 200 && !InRange(Load(nvm))
  {
    var c := WithCrc(Defaults().(tempThreshold := 200));
    WithCrcValid(Defaults().(tempThreshold := 200));
    DecodeEncode(c);
  }

  /** A stored record damaged within 32 consecutive bits is not loaded: the boot falls back to defaults. */
  lemma DamagedRecordNotLoaded(c: Config, damaged: seq<Byte>, i: nat)
    requires IsValid(c) && |damaged| == CONFIG_SIZE && damaged != Encode(c)
    requires G.DifferInWindow(C.AllBits(Encode(c)), C.AllBits(damaged), i)
    ensures Load(Stored(damaged)) == Defaults()
  {
    DecodeEncode(c);
    BurstRejected(Encode(c), damaged, i);
  }

  /** Nor is one with one or two bits flipped, wherever they are. */
  lemma TwoBitsNotLoaded(c: Config, damaged: seq<Byte>, i: nat, j: nat)
    requires IsValid(c) && |damaged| == CONFIG_SIZE && damaged != Encode(c)
    requires i < j < 8 * CONFIG_SIZE && T.DifferOnlyAt(C.AllBits(Encode(c)), C.AllBits(damaged), i, j)
    ensures Load(Stored(damaged)) == Defaults()
  {
    DecodeEncode(c);
    TwoBitsRejected(Encode(c), damaged, i, j);
  }

  /** A version 1 record is taken over with its five shared fields, and with one damaged byte is not. */
  lemma OldRecordMigratedOrRejected(old1: ConfigV1, k: nat, x: Byte)
    requires IsValidV1(old1) && k < CONFIG_V1_SIZE
    ensures Load(Stored(EncodeV1(old1)[k := x])) == if EncodeV1(old1)[k] == x then Migrated(old1) else Defaults()
  {
    DecodeEncodeV1(old1);
    if EncodeV1(old1)[k] == x {
      assert EncodeV1(old1)[k := x] == EncodeV1(old1);
    } else {
      OneByteChangeRejectedV1(EncodeV1(old1), k, x);
    }
  }
}
