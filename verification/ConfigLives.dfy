/**
  Whole lives of the device: booting, changing settings, saving, failed and interrupted saves, switching
  off, and booting again.
*/
module ConfigLives {
  import opened Common
  import opened ConfigRecord
  import opened ConfigStore

  datatype Ram = Off | On(config: Config)

  /** `journal` is history: which configuration was last sent to storage and how much of it arrived. */
  datatype Journal = Untouched | Sent(config: Config, arrived: nat)

  datatype Device = Device(ram: Ram, nvm: Nvm, journal: Journal)

  /** A setter is a change, under the lock, and then a save; the lock is free in between, and the device
      may be switched off there. */
  datatype Action = Boot(o: Outcome) | Change(s: Setting) | SaveNow(o: Outcome) | PowerOff

  predicate Enabled(d: Device, a: Action) {
    match a
    case Boot(o) => d.ram.Off? && Possible(o)
    case Change(_) => d.ram.On?
    case SaveNow(o) => d.ram.On? && Possible(o)
    case PowerOff => d.ram.On?
  }

  /** Config_Save with `c` in memory. */
  function Saved(d: Device, c: Config, o: Outcome): Device
    requires Possible(o)
  {
    var c' := Stamped(c);
    Device(On(c'), AfterWrite(d.nvm, Encode(c'), o),
           match o case Written => Sent(c', CONFIG_SIZE) case NotOpened => d.journal case CutAfter(n) => Sent(c', n))
  }

  function Step(d: Device, a: Action): Device
    requires Enabled(d, a)
  {
    match a
    case Boot(o) => Saved(d, OneBootOn(Load(d.nvm)), o)
    case Change(s) => if Acceptable(s) then d.(ram := On(WithCrc(Applied(d.ram.config, s)))) else d
    case SaveNow(o) => Saved(d, d.ram.config, o)
    case PowerOff => d.(ram := Off)
  }

  ghost predicate Executes(d: Device, acts: seq<Action>, e: Device)
    decreases acts
  {
    if acts == [] then d == e else Enabled(d, acts[0]) && Executes(Step(d, acts[0]), acts[1..], e)
  }

  function Fresh(nvm: Nvm): Device {
    Device(Off, nvm, Untouched)
  }

  ghost predicate Reachable(initial: Nvm, d: Device) {
    exists acts: seq<Action> :: Executes(Fresh(initial), acts, d)
  }

  // ---- What every life keeps ----

  /** Memory is a valid record whenever the device is on, and storage holds the bytes that arrived of
      the last record sent to it, which was valid too. */
  predicate DeviceOk(initial: Nvm, d: Device) {
    && (d.ram.On? ==> IsValid(d.ram.config))
    && match d.journal
       case Untouched => d.nvm == initial
       case Sent(c, n) => IsValid(c) && n <= CONFIG_SIZE && d.nvm == Stored(Encode(c)[..n])
  }

  lemma SavedOk(initial: Nvm, d: Device, c: Config, o: Outcome)
    requires DeviceOk(initial, d) && Possible(o)
    ensures DeviceOk(initial, Saved(d, c, o))
  {
    StampedValid(c);
    assert Encode(Stamped(c))[..CONFIG_SIZE] == Encode(Stamped(c));
  }

  lemma ChangedValid(c: Config, s: Setting)
    requires IsValid(c)
    ensures IsValid(WithCrc(Applied(c, s)))
  {
    WithCrcValid(Applied(c, s));
  }

  lemma StepOk(initial: Nvm, d: Device, a: Action)
    requires DeviceOk(initial, d) && Enabled(d, a)
    ensures DeviceOk(initial, Step(d, a))
  {
    match a {
      case Boot(o) => SavedOk(initial, d, OneBootOn(Load(d.nvm)), o);
      case Change(s) => ChangedValid(d.ram.config, s);
      case SaveNow(o) => SavedOk(initial, d, d.ram.config, o);
      case PowerOff =>
    }
  }

  lemma {:induction false} RunOk(initial: Nvm, d: Device, acts: seq<Action>, e: Device)
    requires DeviceOk(initial, d) && Executes(d, acts, e)
    ensures DeviceOk(initial, e)
    decreases acts
  {
    if acts != [] {
      StepOk(initial, d, acts[0]);
      RunOk(initial, Step(d, acts[0]), acts[1..], e);
    }
  }

  lemma ReachableOk(initial: Nvm, d: Device)
    requires Reachable(initial, d)
    ensures DeviceOk(initial, d)
  {
    var acts: seq<Action> :| Executes(Fresh(initial), acts, d);
    RunOk(initial, Fresh(initial), acts, d);
  }

  // ---- Torn writes and saves ----

  /** In every life of the device, however often it was rebooted and however its saves ended: the next
      boot comes up with exactly the last record sent to storage, one boot on, if all of it arrived;
      with exactly the factory settings and boot count 1 if only part did; never with a mixture. */
  lemma NextBootIsAllOrNothing(initial: Nvm, d: Device, o: Outcome)
    requires Reachable(initial, d) && d.ram.Off? && Possible(o)
    ensures var up := Step(d, Boot(o)).ram.config;
            && IsValid(up)
            && match d.journal
               case Untouched => d.nvm == initial && up == WithCrc(OneBootOn(Load(initial)))
               case Sent(c, n) =>
                 && IsValid(c) && up == WithCrc(OneBootOn(if n == CONFIG_SIZE then c else Defaults()))
                 && (n < CONFIG_SIZE ==> FactorySettings(up, 1))
  {
    ReachableOk(initial, d);
    LoadValid(d.nvm);
    StampingAddsCrc(Load(d.nvm));
    if d.journal.Sent? {
      LoadAfterSave(d.journal.config, d.journal.arrived);
      if d.journal.arrived < CONFIG_SIZE {
        FactoryBoot(Load(d.nvm));
      }
    }
  }

  /** The very first boot, from empty storage, runs with the factory settings and boot count 1, whether or not
      it can save them. */
  lemma FirstBootIsFactory(o: Outcome)
    requires Possible(o)
    ensures var up := Step(Fresh(Missing), Boot(o)).ram; up.On? && IsValid(up.config) && FactorySettings(up.config, 1)
  {
    FactoryBoot(Load(Missing));
  }

  /** Whenever the device is on, between a change and its save too, its configuration is consistent. A
      save that succeeds, of a boot or of a setter, leaves storage equal to memory, and only boots and
      saves touch storage at all. */
  lemma SuccessfulSaveIsFaithful(initial: Nvm, d: Device, a: Action)
    requires Reachable(initial, d) && Enabled(d, a)
    ensures var e := Step(d, a);
            && (d.ram.On? ==> IsValid(d.ram.config)) && (e.ram.On? ==> IsValid(e.ram.config))
            && ((a.Boot? || a.SaveNow?) && a.o.Written? ==> e.nvm == Stored(Encode(e.ram.config)))
            && (a.SaveNow? ==> e.ram == d.ram)
            && (!a.Boot? && !a.SaveNow? ==> e.nvm == d.nvm)
  {
    ReachableOk(initial, d);
    StepOk(initial, d, a);
  }

  /** What a setter promises of the whole device: the setting took effect, or it left no trace. */
  predicate SetTo(d: Device, e: Device, accepted: bool, expected: Config)
    requires d.ram.On?
  {
    if accepted then
      && e.nvm == d.nvm && e.journal == d.journal && e.ram.On? && IsValid(e.ram.config)
      && e.ram.config == expected.(crc32 := e.ram.config.crc32)
    else e == d
  }

  /** Changing a setting to a value in its range changes that field, the CRC so that the record is valid, and
      nothing else: storage waits for the save. A value out of range is refused without a trace. */
  lemma ChangeIsExact(initial: Nvm, d: Device, s: Setting)
    requires Reachable(initial, d) && d.ram.On?
    ensures var c, e := d.ram.config, Step(d, Change(s));
            match s
            case TempThreshold(t) => SetTo(d, e, 5 <= t <= 80, c.(tempThreshold := t))
            case LowVoltage(v) => SetTo(d, e, 20 <= v <= 50, c.(lowVoltageDecivolts := v))
            case DiagnosticPeriod(p) => SetTo(d, e, 1000 <= p <= 60000, c.(diagnosticPeriodMs := p))
            case FramePeriod(p) => SetTo(d, e, 500 <= p <= 30000, c.(framePeriodMs := p))
  {
    ReachableOk(initial, d);
    if Acceptable(s) {
      ChangedValid(d.ram.config, s);
    }
  }

  /** A setter that nobody interrupts is its two steps, and does what the method Set promises. */
  lemma SetterIsTwoSteps(initial: Nvm, d: Device, s: Setting, o: Outcome)
    requires Reachable(initial, d) && d.ram.On? && Acceptable(s) && Possible(o)
    ensures var e := Step(Step(d, Change(s)), SaveNow(o));
            && e.ram == On(Stamped(Applied(d.ram.config, s)))
            && e.nvm == AfterWrite(d.nvm, Encode(e.ram.config), o)
  {
    ReachableOk(initial, d);
    ChangedValid(d.ram.config, s);
  }

  // ---- Ranges ----

  /** All four tunables are in range while on, and whatever the next boot loads is in range. */
  predicate Ranged(d: Device) {
    InRange(Load(d.nvm)) && (d.ram.On? ==> InRange(d.ram.config))
  }

  lemma SavedRanged(d: Device, c: Config, o: Outcome)
    requires Ranged(d) && InRange(c) && Possible(o)
    ensures Ranged(Saved(d, c, o))
  {
    var c' := Stamped(c);
    StampedValid(c);
    LoadAfterSave(c', if o.CutAfter? then o.n else CONFIG_SIZE);
    assert Encode(c')[..CONFIG_SIZE] == Encode(c');
  }

  lemma StepRanged(d: Device, a: Action)
    requires Ranged(d) && Enabled(d, a)
    ensures Ranged(Step(d, a))
  {
    match a {
      case Boot(o) => SavedRanged(d, OneBootOn(Load(d.nvm)), o);
      case Change(_) =>
      case SaveNow(o) => SavedRanged(d, d.ram.config, o);
      case PowerOff =>
    }
  }

  lemma {:induction false} RunRanged(d: Device, acts: seq<Action>, e: Device)
    requires Ranged(d) && Executes(d, acts, e)
    ensures Ranged(e)
    decreases acts
  {
    if acts != [] {
      StepRanged(d, acts[0]);
      RunRanged(Step(d, acts[0]), acts[1..], e);
    }
  }

  lemma ReachableRanged(initial: Nvm, d: Device)
    requires InRange(Load(initial)) && Reachable(initial, d)
    ensures Ranged(d)
  {
    var acts: seq<Action> :| Executes(Fresh(initial), acts, d);
    RunRanged(Fresh(initial), acts, d);
  }

  lemma FirstBootShowsLoad(initial: Nvm) returns (d: Device)
    ensures Reachable(initial, d) && d.ram.On?
    ensures InRange(d.ram.config) <==> InRange(Load(initial))
  {
    var acts := [Boot(NotOpened)];
    d := Step(Fresh(initial), acts[0]);
    assert acts[1..] == [] && Executes(d, [], d);
    assert Executes(Fresh(initial), acts, d);
  }

  /** Every sequence of boots, settings, saves and failures keeps the tunables in range exactly when
      what the first boot loads is in range. */
  lemma AlwaysInRangeIff(initial: Nvm)
    ensures InRange(Load(initial)) <==> forall d :: Reachable(initial, d) && d.ram.On? ==> InRange(d.ram.config)
  {
    if InRange(Load(initial)) {
      forall d | Reachable(initial, d) && d.ram.On? ensures InRange(d.ram.config) {
        ReachableRanged(initial, d);
      }
    } else {
      var d := FirstBootShowsLoad(initial);
    }
  }

  // ---- Boot count ----

  function Boots(acts: seq<Action>): nat {
    if acts == [] then 0 else (if acts[0].Boot? then 1 else 0) + Boots(acts[1..])
  }

  predicate Succeeds(a: Action) {
    a.Boot? || a.SaveNow? ==> a.o.Written?
  }

  predicate AllWritten(acts: seq<Action>) {
    forall k :: 0 <= k < |acts| ==> Succeeds(acts[k])
  }

  /** `n` boots so far, counted modulo 2^32 in memory and in storage. */
  predicate Counted(d: Device, n: nat) {
    Load(d.nvm).bootCount == n % U32 && (d.ram.On? ==> d.ram.config.bootCount == n % U32)
  }

  lemma SaveCounted(d: Device, c: Config, n: nat)
    requires c.bootCount == n % U32
    ensures Counted(Saved(d, c, Written), n)
  {
    StampedValid(c);
    LoadAfterSave(Stamped(c), CONFIG_SIZE);
    assert Encode(Stamped(c))[..CONFIG_SIZE] == Encode(Stamped(c));
  }

  lemma OneMoreBoot(c: Config, n: nat)
    requires c.bootCount == n % U32
    ensures OneBootOn(c).bootCount == (n + 1) % U32
  {
    assert (n % U32 + 1) % U32 == (n + 1) % U32;
  }

  lemma StepCounted(d: Device, a: Action, n: nat)
    requires Enabled(d, a) && Succeeds(a) && Counted(d, n)
    ensures Counted(Step(d, a), if a.Boot? then n + 1 else n)
  {
    match a {
      case Boot(o) =>
        OneMoreBoot(Load(d.nvm), n);
        SaveCounted(d, OneBootOn(Load(d.nvm)), n + 1);
      case Change(_) =>
      case SaveNow(o) => SaveCounted(d, d.ram.config, n);
      case PowerOff =>
    }
  }

  lemma {:induction false} BootsCounted(d: Device, acts: seq<Action>, e: Device, n: nat, total: nat)
    requires Executes(d, acts, e) && AllWritten(acts) && Counted(d, n)
    requires total == n + Boots(acts)
    ensures Counted(e, total)
    decreases acts
  {
    if acts != [] {
      StepCounted(d, acts[0], n);
      BootsCounted(Step(d, acts[0]), acts[1..], e, if acts[0].Boot? then n + 1 else n, total);
    }
  }

  /** From empty storage, as long as every save succeeds, the boot count is the number of boots. */
  lemma BootCountCountsBoots(acts: seq<Action>, d: Device)
    requires Executes(Fresh(Missing), acts, d) && AllWritten(acts) && d.ram.On?
    ensures d.ram.config.bootCount == Boots(acts) % U32
  {
    BootsCounted(Fresh(Missing), acts, d, 0, Boots(acts));
  }
}
