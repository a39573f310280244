/**
  The telemetry encoder (telemetry_encoder.c): printing an event as one line of JSON into a caller's buffer,
  and reading it back.
*/
module Telemetry {
  import opened Common
  import opened EventBus

  function TopicName(topic: nat): string {
    match topic
    case 0 => "TEMP_UPDATE"
    case 1 => "BUTTON_PRESS"
    case 2 => "SYSTEM_FAULT"
    case 3 => "HEARTBEAT"
    case 4 => "SENSOR_READING"
    case 5 => "THRESHOLD_CROSSED"
    case 6 => "DEVICE_STATUS"
    case 7 => "CONFIG_UPDATE"
    case 8 => "COMMAND_RECEIVED"
    case 9 => "ACTUATOR_COMMAND"
    case 10 => "ACTUATOR_STATUS"
    case 11 => "STORAGE_LOG"
    case 12 => "NETWORK_STATUS"
    case 13 => "DIAGNOSTIC_REPORT"
    case 14 => "POWER_EVENT"
    case 15 => "OTA_EVENT"
    case 16 => "SECURITY_EVENT"
    case 17 => "FRAME_READY"
    case _ => "UNKNOWN"
  }

  // ---- Decimal numbers ----

  function Digit(d: nat): char
    requires d < 10
  {
    '0' + d as char
  }

  predicate IsDigit(c: char) {
    '0' <= c <= '9'
  }

  function DigitValue(c: char): nat
    requires IsDigit(c)
  {
    c as int - '0' as int
  }

  function Decimal(n: nat): string {
    if n < 10 then [Digit(n)] else Decimal(n / 10) + [Digit(n % 10)]
  }

  function Value(s: string): nat
    requires forall c :: c in s ==> IsDigit(c)
  {
    if s == "" then 0 else 10 * Value(s[..|s| - 1]) + DigitValue(s[|s| - 1])
  }

  lemma {:induction false} ValueOfDecimal(n: nat)
    ensures Decimal(n) != "" && (forall c :: c in Decimal(n) ==> IsDigit(c)) && Value(Decimal(n)) == n
  {
    if n >= 10 {
      ValueOfDecimal(n / 10);
      assert Decimal(n)[..|Decimal(n)| - 1] == Decimal(n / 10);
    }
  }

  function Pow10(k: nat): nat {
    if k == 0 then 1 else 10 * Pow10(k - 1)
  }

  lemma {:induction false} DecimalFits(n: nat, k: nat)
    requires k > 0 && n < Pow10(k)
    ensures |Decimal(n)| <= k
  {
    if n >= 10 {
      DecimalFits(n / 10, k - 1);
    }
  }

  // ---- Formats ----

  /** One conversion of a format and the text before it: a number, or a name that runs up to a quote. */
  datatype Field = Field(lead: string, numeric: bool)

  datatype Arg = Nat(n: nat) | Str(s: string)

  predicate Fits(fields: seq<Field>, args: seq<Arg>) {
    |args| == |fields| && forall i :: 0 <= i < |fields| ==> fields[i].numeric == args[i].Nat?
  }

  function Shown(arg: Arg): string {
    if arg.Nat? then Decimal(arg.n) else arg.s
  }

  function Print(fields: seq<Field>, args: seq<Arg>, closing: string): string
    requires |args| == |fields|
  {
    if fields == [] then closing
    else fields[0].lead + (Shown(args[0]) + Print(fields[1..], args[1..], closing))
  }

  /** The characters a conversion can have produced. */
  predicate Produces(numeric: bool, c: char) {
    if numeric then IsDigit(c) else c != '"'
  }

  function Run(numeric: bool, s: string): (n: nat)
    ensures n <= |s| && forall c :: c in s[..n] ==> Produces(numeric, c)
    ensures n < |s| ==> !Produces(numeric, s[n])
  {
    if s == "" || !Produces(numeric, s[0]) then 0 else 1 + Run(numeric, s[1..])
  }

  function ArgOf(numeric: bool, d: string): Arg
    requires forall c :: c in d ==> Produces(numeric, c)
  {
    if numeric then
      assert forall c :: c in d ==> Produces(numeric, c) && IsDigit(c);
      Nat(Value(d))
    else Str(d)
  }

  datatype Option<T> = None | Some(value: T)

  /** A reader for a format: it never looks back. */
  function Scan(fields: seq<Field>, closing: string, s: string): Option<seq<Arg>> {
    if fields == [] then (if s == closing then Some([]) else None)
    else if !(fields[0].lead <= s) then None
    else
      var t := s[|fields[0].lead|..];
      var n := Run(fields[0].numeric, t);
      var rest := Scan(fields[1..], closing, t[n..]);
      if rest.None? then None else Some([ArgOf(fields[0].numeric, t[..n])] + rest.value)
  }

  function TextAfter(fields: seq<Field>, closing: string, i: nat): string
    requires i < |fields|
  {
    if i + 1 < |fields| then fields[i + 1].lead else closing
  }

  /** Every conversion is followed by text that it cannot have produced. */
  predicate Separated(fields: seq<Field>, closing: string) {
    forall i :: 0 <= i < |fields| ==>
      TextAfter(fields, closing, i) != "" && !Produces(fields[i].numeric, TextAfter(fields, closing, i)[0])
  }

  lemma {:induction false} RunStops(numeric: bool, s: string, rest: string)
    requires forall c :: c in s ==> Produces(numeric, c)
    requires rest == "" || !Produces(numeric, rest[0])
    ensures Run(numeric, s + rest) == |s|
  {
    if s == "" {
      assert s + rest == rest;
    } else {
      assert (s + rest)[1..] == s[1..] + rest;
      RunStops(numeric, s[1..], rest);
    }
  }

  predicate Plain(arg: Arg) {
    arg.Str? ==> '"' !in arg.s
  }

  lemma ShownReadsBack(arg: Arg)
    requires Plain(arg)
    ensures (forall c :: c in Shown(arg) ==> Produces(arg.Nat?, c)) && ArgOf(arg.Nat?, Shown(arg)) == arg
  {
    if arg.Nat? {
      ValueOfDecimal(arg.n);
    }
  }

  lemma SeparatedTail(fields: seq<Field>, closing: string)
    requires fields != [] && Separated(fields, closing)
    ensures Separated(fields[1..], closing)
  {
    forall i | 0 <= i < |fields| - 1 ensures TextAfter(fields[1..], closing, i) == TextAfter(fields, closing, i + 1) {
    }
  }

  /** Reading one field of a line, when the rest of it can be read. */
  lemma ScanField(fields: seq<Field>, closing: string, d: string, rest: string)
    requires fields != [] && forall c :: c in d ==> Produces(fields[0].numeric, c)
    requires rest != "" && !Produces(fields[0].numeric, rest[0]) && Scan(fields[1..], closing, rest).Some?
    ensures Scan(fields, closing, fields[0].lead + (d + rest))
         == Some([ArgOf(fields[0].numeric, d)] + Scan(fields[1..], closing, rest).value)
  {
    var s := fields[0].lead + (d + rest);
    RunStops(fields[0].numeric, d, rest);
    assert fields[0].lead <= s && s[|fields[0].lead|..] == d + rest;
    assert (d + rest)[..|d|] == d && (d + rest)[|d|..] == rest;
  }

  lemma {:induction false} ScanFirst(fields: seq<Field>, args: seq<Arg>, closing: string, d: string, rest: string)
    requires fields != [] && args != [] && forall c :: c in d ==> Produces(fields[0].numeric, c)
    requires ArgOf(fields[0].numeric, d) == args[0]
    requires rest != "" && !Produces(fields[0].numeric, rest[0]) && Scan(fields[1..], closing, rest) == Some(args[1..])
    ensures Scan(fields, closing, fields[0].lead + (d + rest)) == Some(args)
  {
    ScanField(fields, closing, d, rest);
    assert [args[0]] + args[1..] == args;
  }

  /** What a separated format prints can be read back. */
  lemma {:induction false} ScanPrint(fields: seq<Field>, args: seq<Arg>, closing: string)
    requires Fits(fields, args) && Separated(fields, closing) && forall i :: 0 <= i < |args| ==> Plain(args[i])
    ensures Scan(fields, closing, Print(fields, args, closing)) == Some(args)
  {
    if fields != [] {
      SeparatedTail(fields, closing);
      ScanPrint(fields[1..], args[1..], closing);
      ShownReadsBack(args[0]);
      StartsWithText(fields, args, closing);
      ScanFirst(fields, args, closing, Shown(args[0]), Print(fields[1..], args[1..], closing));
    }
  }

  lemma StartsWithText(fields: seq<Field>, args: seq<Arg>, closing: string)
    requires fields != [] && |args| == |fields| && Separated(fields, closing)
    ensures var rest := Print(fields[1..], args[1..], closing); rest != "" && !Produces(fields[0].numeric, rest[0])
  {
    assert TextAfter(fields, closing, 0) <= Print(fields[1..], args[1..], closing);
  }

  function Total(room: seq<nat>): nat {
    if room == [] then 0 else room[0] + Total(room[1..])
  }

  /** Print is no longer than the room given to each field, and the closing text. */
  lemma {:induction false} PrintLength(fields: seq<Field>, args: seq<Arg>, closing: string, room: seq<nat>)
    requires |args| == |fields| == |room|
    requires forall i :: 0 <= i < |fields| ==> |fields[i].lead| + |Shown(args[i])| <= room[i]
    ensures |Print(fields, args, closing)| <= Total(room) + |closing|
  {
    if fields != [] {
      PrintLength(fields[1..], args[1..], closing, room[1..]);
    }
  }

  // ---- The encoder ----

  const FIELDS: seq<Field> := [
    Field("{\"id\":", true), Field(",\"seq\":", true), Field(",\"ts\":", true), Field(",\"topic\":\"", false),
    Field("\",\"src\":", true), Field(",\"prio\":", true), Field(",\"p0\":", true), Field(",\"p1\":", true),
    Field(",\"p2\":", true)]

  const CLOSING: string := "}"

  function Args(e: Event): (r: seq<Arg>)
    ensures Fits(FIELDS, r)
  {
    [Nat(e.eventId), Nat(e.sequence), Nat(e.timestamp), Str(TopicName(e.topic)), Nat(e.sourceTask), Nat(e.priority),
     Nat(e.p0), Nat(e.p1), Nat(e.p2)]
  }

  function Encode(e: Event): string {
    Print(FIELDS, Args(e), CLOSING)
  }

  /** The bounded printer: at most the size of the buffer, always terminated; the result is the full length. */
  method EncodeJson(event: Option<Event>, out: array?<char>, outSize: nat) returns (n: int)
    requires out != null ==> outSize <= out.Length
    modifies out
    ensures event.None? || out == null || outSize == 0 ==> n == -1 && (out != null ==> out[..] == old(out[..]))
    ensures event.Some? && out != null && outSize > 0 ==>
              var text := Encode(event.value);
              var kept := if |text| < outSize then text else text[..outSize - 1];
              n == |text| && out[..] == kept + ['\0'] + old(out[..])[|kept| + 1..]
  {
    if event.None? || out == null || outSize == 0 {
      return -1;
    }
    var text := Encode(event.value);
    var kept := if |text| < outSize then text else text[..outSize - 1];
    var i := 0;
    while i < |kept|
      invariant i <= |kept|
      invariant forall j :: 0 <= j < i ==> out[j] == kept[j]
      invariant forall j :: i <= j < out.Length ==> out[j] == old(out[j])
    {
      out[i] := kept[i];
      i := i + 1;
    }
    out[i] := '\0';
    n := |text|;
  }

  // ---- What it promises ----

  lemma NameLength(topic: nat)
    ensures |TopicName(topic)| <= 17
  {
  }

  lemma NameIsPlain(topic: nat)
    ensures '"' !in TopicName(topic)
  {
    if topic < 9 {
      FirstNamesPlain(topic);
    } else {
      LastNamesPlain(topic);
    }
  }

  lemma FirstNamesPlain(topic: nat)
    requires topic < 9
    ensures '"' !in TopicName(topic)
  {
  }

  lemma LastNamesPlain(topic: nat)
    requires topic >= 9
    ensures '"' !in TopicName(topic)
  {
  }

  lemma NamesDistinct(a: nat, b: nat)
    ensures TopicName(a) == TopicName(b) <==> a == b || (a >= TOPIC_MAX && b >= TOPIC_MAX)
  {
  }

  /** Each topic is printed under its own name. */
  lemma FirstNames()
    ensures TopicName(TOPIC_TEMP_UPDATE) == "TEMP_UPDATE"
    ensures TopicName(TOPIC_BUTTON_PRESS) == "BUTTON_PRESS"
    ensures TopicName(TOPIC_SYSTEM_FAULT) == "SYSTEM_FAULT"
    ensures TopicName(TOPIC_HEARTBEAT) == "HEARTBEAT"
    ensures TopicName(TOPIC_SENSOR_READING) == "SENSOR_READING"
    ensures TopicName(TOPIC_THRESHOLD_CROSSED) == "THRESHOLD_CROSSED"
    ensures TopicName(TOPIC_DEVICE_STATUS) == "DEVICE_STATUS"
    ensures TopicName(TOPIC_CONFIG_UPDATE) == "CONFIG_UPDATE"
    ensures TopicName(TOPIC_COMMAND_RECEIVED) == "COMMAND_RECEIVED"
  {
  }

  /** The other topics likewise, and any number that is no topic as unknown. */
  lemma LastNames(topic: nat)
    ensures TopicName(TOPIC_ACTUATOR_COMMAND) == "ACTUATOR_COMMAND"
    ensures TopicName(TOPIC_ACTUATOR_STATUS) == "ACTUATOR_STATUS"
    ensures TopicName(TOPIC_STORAGE_LOG) == "STORAGE_LOG"
    ensures TopicName(TOPIC_NETWORK_STATUS) == "NETWORK_STATUS"
    ensures TopicName(TOPIC_DIAGNOSTIC_REPORT) == "DIAGNOSTIC_REPORT"
    ensures TopicName(TOPIC_POWER_EVENT) == "POWER_EVENT"
    ensures TopicName(TOPIC_OTA_EVENT) == "OTA_EVENT"
    ensures TopicName(TOPIC_SECURITY_EVENT) == "SECURITY_EVENT"
    ensures TopicName(TOPIC_FRAME_READY) == "FRAME_READY"
    ensures topic >= TOPIC_MAX ==> TopicName(topic) == "UNKNOWN"
  {
  }

  lemma DigitText(d: nat)
    requires d < 10
    ensures Digit(d) == "0123456789"[d]
  {
    if d < 5 {
      assert d == 0 || d == 1 || d == 2 || d == 3 || d == 4;
    } else {
      assert d == 5 || d == 6 || d == 7 || d == 8 || d == 9;
    }
  }

  /** Numbers are printed in decimal, the last digit after those of a tenth of the number, with no zero in front. */
  lemma {:induction false} DecimalText(n: nat)
    ensures Decimal(n) == (if n < 10 then "" else Decimal(n / 10)) + ["0123456789"[n % 10]]
    ensures Decimal(n)[0] == '0' <==> n == 0
  {
    DigitText(n % 10);
    if n >= 10 {
      DecimalText(n / 10);
    }
  }

  /** The line from field `i` on. */
  function From(e: Event, i: nat): string
    requires i <= 9
  {
    Print(FIELDS[i..], Args(e)[i..], CLOSING)
  }

  lemma FromField(e: Event, i: nat)
    requires i < 9
    ensures From(e, i) == FIELDS[i].lead + (Shown(Args(e)[i]) + From(e, i + 1))
  {
    assert FIELDS[i..][1..] == FIELDS[i + 1..] && Args(e)[i..][1..] == Args(e)[i + 1..];
  }

  lemma LineEnd(e: Event)
    ensures From(e, 4) ==
            "\",\"src\":" + (Decimal(e.sourceTask) + (",\"prio\":" + (Decimal(e.priority) +
            (",\"p0\":" + (Decimal(e.p0) + (",\"p1\":" + (Decimal(e.p1) + (",\"p2\":" + (Decimal(e.p2) + "}")))))))))
  {
    FromField(e, 4);
    FromField(e, 5);
    FromField(e, 6);
    FromField(e, 7);
    FromField(e, 8);
    assert From(e, 9) == CLOSING;
  }

  /** The text of the line, key by key. */
  lemma LineText(e: Event)
    ensures Encode(e) ==
            "{\"id\":" + (Decimal(e.eventId) + (",\"seq\":" + (Decimal(e.sequence) + (",\"ts\":" +
            (Decimal(e.timestamp) + (",\"topic\":\"" + (TopicName(e.topic) +
            ("\",\"src\":" + (Decimal(e.sourceTask) + (",\"prio\":" + (Decimal(e.priority) +
            (",\"p0\":" + (Decimal(e.p0) + (",\"p1\":" + (Decimal(e.p1) +
            (",\"p2\":" + (Decimal(e.p2) + "}")))))))))))))))))
  {
    FromField(e, 0);
    FromField(e, 1);
    FromField(e, 2);
    FromField(e, 3);
    LineEnd(e);
    assert FIELDS[0..] == FIELDS && Args(e)[0..] == Args(e);
  }

  predicate SamePrinted(a: Event, b: Event) {
    && a.eventId == b.eventId && a.sequence == b.sequence && a.timestamp == b.timestamp
    && (a.topic == b.topic || (a.topic >= TOPIC_MAX && b.topic >= TOPIC_MAX))
    && a.sourceTask == b.sourceTask && a.priority == b.priority && a.p0 == b.p0 && a.p1 == b.p1 && a.p2 == b.p2
  }

  lemma FormatSeparated()
    ensures Separated(FIELDS, CLOSING)
  {
  }

  /** A reader recovers all nine fields from the line. */
  lemma ScanEncode(e: Event)
    ensures Scan(FIELDS, CLOSING, Encode(e)) == Some(Args(e))
  {
    FormatSeparated();
    NameIsPlain(e.topic);
    ScanPrint(FIELDS, Args(e), CLOSING);
  }

  /** Events print alike exactly when their printed fields agree. */
  lemma EncodeInjective(a: Event, b: Event)
    ensures Encode(a) == Encode(b) <==> SamePrinted(a, b)
  {
    ScanEncode(a);
    ScanEncode(b);
    NamesDistinct(a.topic, b.topic);
    assert Args(a) == Args(b) <==> SamePrinted(a, b);
  }

  /** The widths of the struct: 32-bit counters, bytes, and ticks of up to 64 bits. */
  predicate InRange(e: Event) {
    && e.eventId < U32 && e.sequence < U32 && e.timestamp < U32 * U32
    && e.sourceTask < 256 && e.priority < 256 && e.p0 < 256 && e.p1 < 256 && e.p2 < 256
  }

  const ROOM: seq<nat> := [16, 17, 26, 27, 11, 11, 9, 9, 9]

  lemma Widths(e: Event)
    requires InRange(e)
    ensures |Decimal(e.eventId)| <= 10 && |Decimal(e.sequence)| <= 10 && |Decimal(e.timestamp)| <= 20
    ensures |Decimal(e.sourceTask)| <= 3 && |Decimal(e.priority)| <= 3
    ensures |Decimal(e.p0)| <= 3 && |Decimal(e.p1)| <= 3 && |Decimal(e.p2)| <= 3
  {
    assert Pow10(5) == 100000 && Pow10(10) == 100000 * Pow10(5) && Pow10(20) == 100000 * (100000 * Pow10(10));
    DecimalFits(e.eventId, 10);
    DecimalFits(e.sequence, 10);
    DecimalFits(e.timestamp, 20);
    DecimalFits(e.sourceTask, 3);
    DecimalFits(e.priority, 3);
    DecimalFits(e.p0, 3);
    DecimalFits(e.p1, 3);
    DecimalFits(e.p2, 3);
  }

  lemma RoomForFields(e: Event)
    requires InRange(e)
    ensures forall i :: 0 <= i < |FIELDS| ==> |FIELDS[i].lead| + |Shown(Args(e)[i])| <= ROOM[i]
  {
    Widths(e);
    NameLength(e.topic);
  }

  /** The line always fits the cloud task's 192-byte buffer, terminator included, so it is never cut. */
  lemma AlwaysFits(e: Event)
    requires InRange(e)
    ensures |Encode(e)| + 1 <= 137 < 192
  {
    RoomForFields(e);
    assert Total(ROOM) == 135;
    PrintLength(FIELDS, Args(e), CLOSING, ROOM);
  }
}
