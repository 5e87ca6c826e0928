/**
 * The GC2 launch-monitor simulator: it builds the monitor's text messages
 * (a `0H` shot reading, a `0M` device status), cuts each into USB-sized
 * packets and writes them to every connected client, an early reading
 * without spin followed by a final reading with spin.
 *
 * A message is a header line and `KEY=VALUE` lines joined by newlines and
 * terminated by "\n\t". Float readings are carried as the text the
 * simulator formats them to (`155.23`, `2750`); the random draws of the
 * shot generators are a parameter of `FireShot`.
 */
module Gc2Simulator {
  import opened Text
  import opened Packets

  // The message format.

  /** Text with no `=` and no newline, as a key name is. */
  predicate Plain(s: string) {
    forall i :: 0 <= i < |s| ==> s[i] != '=' && s[i] != '\n'
  }

  type Name = s: string | Plain(s) witness ""

  /** The keys of the monitor's `KEY=VALUE` lines. */
  datatype Key =
    | ShotId | TimeSec | MsecSinceContact | SpeedMph | AzimuthDeg | ElevationDeg | SpinRpm
    | BackRpm | SideRpm | IsLeft | WorldStartX | WorldStartY | WorldStartZ
    | Hmt | ClubSpeedMph | HPathDeg | VPathDeg | FaceTDeg
    | Flags | Balls | Ball1

  const ShotIdName: Name := "SHOT_ID"
  const TimeSecName: Name := "TIME_SEC"
  const MsecSinceContactName: Name := "MSEC_SINCE_CONTACT"
  const SpeedMphName: Name := "SPEED_MPH"
  const AzimuthDegName: Name := "AZIMUTH_DEG"
  const ElevationDegName: Name := "ELEVATION_DEG"
  const SpinRpmName: Name := "SPIN_RPM"
  const BackRpmName: Name := "BACK_RPM"
  const SideRpmName: Name := "SIDE_RPM"
  const IsLeftName: Name := "IS_LEFT"
  const WorldStartXName: Name := "WORLDSTART_X"
  const WorldStartYName: Name := "WORLDSTART_Y"
  const WorldStartZName: Name := "WORLDSTART_Z"
  const HmtName: Name := "HMT"
  const ClubSpeedMphName: Name := "CLUBSPEED_MPH"
  const HPathDegName: Name := "HPATH_DEG"
  const VPathDegName: Name := "VPATH_DEG"
  const FaceTDegName: Name := "FACE_T_DEG"
  const FlagsName: Name := "FLAGS"
  const BallsName: Name := "BALLS"
  const Ball1Name: Name := "BALL1"

  /** The name a key is written with. */
  function KeyName(k: Key): Name {
    match k
    case ShotId => ShotIdName
    case TimeSec => TimeSecName
    case MsecSinceContact => MsecSinceContactName
    case SpeedMph => SpeedMphName
    case AzimuthDeg => AzimuthDegName
    case ElevationDeg => ElevationDegName
    case SpinRpm => SpinRpmName
    case BackRpm => BackRpmName
    case SideRpm => SideRpmName
    case IsLeft => IsLeftName
    case WorldStartX => WorldStartXName
    case WorldStartY => WorldStartYName
    case WorldStartZ => WorldStartZName
    case Hmt => HmtName
    case ClubSpeedMph => ClubSpeedMphName
    case HPathDeg => HPathDegName
    case VPathDeg => VPathDegName
    case FaceTDeg => FaceTDegName
    case Flags => FlagsName
    case Balls => BallsName
    case Ball1 => Ball1Name
  }

  datatype Field = Field(key: Key, value: string)

  /** A message: its header line (`0H`, `0M`) and its fields, in order. */
  datatype Message = Message(header: string, fields: seq<Field>)

  function FieldLine(f: Field): string {
    KeyName(f.key) + "=" + f.value
  }

  function FieldLines(fs: seq<Field>): seq<string> {
    if fs == [] then [] else [FieldLine(fs[0])] + FieldLines(fs[1..])
  }

  /** The message text: `"\n".join(lines) + "\n\t"`. */
  function Render(m: Message): string {
    Join([m.header] + FieldLines(m.fields), '\n') + "\n\t"
  }

  /** A message as a reader sees the text: the header and the (name, value) pair of each line. */
  datatype Reading = Reading(header: string, pairs: seq<(string, string)>)

  function Pairs(fs: seq<Field>): seq<(string, string)> {
    if fs == [] then [] else [(KeyName(fs[0].key), fs[0].value)] + Pairs(fs[1..])
  }

  /** A line read back: the name before the first `=` and the value after it. */
  function ParseLine(line: string): Option<(string, string)> {
    var k := Find(line, '=', 0);
    if k < 0 then None else Some((line[..k], line[k + 1..]))
  }

  function ParseLines(lines: seq<string>): Option<seq<(string, string)>> {
    if lines == [] then Some([])
    else
      match (ParseLine(lines[0]), ParseLines(lines[1..]))
      case (Some(p), Some(ps)) => Some([p] + ps)
      case _ => None
  }

  /** The reading side of the format: lines up to the "\t" terminator, each split at its first `=`. */
  function ParseMessage(text: string): Option<Reading> {
    var lines := Split(text, '\n');
    if |lines| < 2 || lines[|lines| - 1] != "\t" then None
    else
      match ParseLines(lines[1..|lines| - 1])
      case Some(ps) => Some(Reading(lines[0], ps))
      case None => None
  }

  /** A message whose lines survive the round trip: no newline in the header or in a value. */
  predicate WellFormed(m: Message) {
    '\n' !in m.header && forall i :: 0 <= i < |m.fields| ==> '\n' !in m.fields[i].value
  }

  /** The value of the first field with the key. */
  function Lookup(fs: seq<Field>, key: Key): Option<string> {
    LookupFrom(fs, key, 0)
  }

  function LookupFrom(fs: seq<Field>, key: Key, i: nat): Option<string>
    decreases |fs| - i
  {
    if i >= |fs| then None
    else if fs[i].key == key then Some(fs[i].value)
    else LookupFrom(fs, key, i + 1)
  }

  lemma ParseFieldLine(f: Field)
    requires '\n' !in f.value
    ensures ParseLine(FieldLine(f)) == Some((KeyName(f.key), f.value))
    ensures '\n' !in FieldLine(f)
  {
    var name := KeyName(f.key);
    var s := FieldLine(f);
    var k := |name|;
    assert s[k] == '=';
    assert forall i :: 0 <= i < k ==> s[i] == name[i];
    assert forall i :: k < i < |s| ==> s[i] == f.value[i - k - 1];
    assert Find(s, '=', 0) == k;
    assert s[..k] == name && s[k + 1..] == f.value;
  }

  lemma {:induction false} ParseFieldLines(fs: seq<Field>)
    requires forall i :: 0 <= i < |fs| ==> '\n' !in fs[i].value
    ensures ParseLines(FieldLines(fs)) == Some(Pairs(fs))
    ensures |FieldLines(fs)| == |fs|
    ensures forall i :: 0 <= i < |fs| ==> '\n' !in FieldLines(fs)[i]
  {
    if fs != [] {
      ParseFieldLine(fs[0]);
      ParseFieldLines(fs[1..]);
      var lines := FieldLines(fs);
      assert lines[0] == FieldLine(fs[0]) && lines[1..] == FieldLines(fs[1..]);
      forall i | 0 <= i < |fs| ensures '\n' !in lines[i] {
        if i > 0 {
          assert lines[i] == FieldLines(fs[1..])[i - 1];
        }
      }
    }
  }

  lemma {:induction false} JoinSnoc(lines: seq<string>, last: string, sep: char)
    requires |lines| >= 1
    ensures Join(lines + [last], sep) == Join(lines, sep) + [sep] + last
    decreases |lines|
  {
    if |lines| > 1 {
      var rest := lines[1..];
      assert (lines + [last])[1..] == rest + [last];
      JoinSnoc(rest, last, sep);
      JoinCons(lines[0], rest + [last], sep);
      assert lines + [last] == [lines[0]] + (rest + [last]);
    } else {
      assert lines + [last] == [lines[0]] + [last];
      JoinCons(lines[0], [last], sep);
    }
  }

  /** Reading a rendered message gives back its header and each field's name and value, in order. */
  lemma RenderParse(m: Message)
    requires WellFormed(m)
    ensures ParseMessage(Render(m)) == Some(Reading(m.header, Pairs(m.fields)))
  {
    var body := FieldLines(m.fields);
    var lines := [m.header] + body;
    ParseFieldLines(m.fields);
    JoinSnoc(lines, "\t", '\n');
    assert Render(m) == Join(lines + ["\t"], '\n');
    var all := lines + ["\t"];
    forall i | 0 <= i < |all| ensures '\n' !in all[i] {
      if 0 < i < |lines| {
        assert all[i] == body[i - 1];
      }
    }
    SplitJoin(all, '\n');
    assert all[1..|all| - 1] == body;
  }

  /** `Lookup` finds the first field with the key. */
  lemma LookupAt(fs: seq<Field>, key: Key, i: nat)
    requires i < |fs| && fs[i].key == key
    requires forall j :: 0 <= j < i ==> fs[j].key != key
    ensures Lookup(fs, key) == Some(fs[i].value)
  {
    LookupFromAt(fs, key, 0, i);
  }

  lemma {:induction false} LookupFromAt(fs: seq<Field>, key: Key, m: nat, i: nat)
    requires m <= i < |fs| && fs[i].key == key
    requires forall j :: m <= j < i ==> fs[j].key != key
    ensures LookupFrom(fs, key, m) == Some(fs[i].value)
    decreases i - m
  {
    if m < i {
      LookupFromAt(fs, key, m + 1, i);
    }
  }

  /** `Lookup` finds nothing for a key no field has. */
  lemma LookupNone(fs: seq<Field>, key: Key)
    requires forall j :: 0 <= j < |fs| ==> fs[j].key != key
    ensures Lookup(fs, key) == None
  {
    LookupFromNone(fs, key, 0);
  }

  lemma {:induction false} LookupFromNone(fs: seq<Field>, key: Key, m: nat)
    requires forall j :: m <= j < |fs| ==> fs[j].key != key
    ensures LookupFrom(fs, key, m) == None
    decreases |fs| - m
  {
    if m < |fs| {
      LookupFromNone(fs, key, m + 1);
    }
  }

  // The readings.

  /** Ball readings, formatted: speed, launch and direction with two decimals, spins with none. */
  datatype Ball = Ball(speedMph: string, launchAngle: string, direction: string,
                       totalSpin: string, backSpin: string, sideSpin: string)

  /** A shot: its id, the ball readings and the optional club (HMT) readings, formatted with one decimal. */
  datatype ShotData = ShotData(shotId: int, ball: Ball, clubSpeed: Option<string>, path: Option<string>,
                               attackAngle: Option<string>, faceToTarget: Option<string>)

  /** No reading contains a newline (true of any formatted number). */
  predicate Formatted(shot: ShotData) {
    var b := shot.ball;
    '\n' !in b.speedMph && '\n' !in b.launchAngle && '\n' !in b.direction
    && '\n' !in b.totalSpin && '\n' !in b.backSpin && '\n' !in b.sideSpin
    && (shot.clubSpeed.Some? ==> '\n' !in shot.clubSpeed.value)
    && (shot.path.Some? ==> '\n' !in shot.path.value)
    && (shot.attackAngle.Some? ==> '\n' !in shot.attackAngle.value)
    && (shot.faceToTarget.Some? ==> '\n' !in shot.faceToTarget.value)
  }

  function Optional(key: Key, v: Option<string>): seq<Field> {
    if v.Some? then [Field(key, v.value)] else []
  }

  function HeadFields(shot: ShotData, msecSinceContact: int): seq<Field> {
    [ Field(ShotId, IntToDecimal(shot.shotId)),
      Field(TimeSec, "0"),
      Field(MsecSinceContact, IntToDecimal(msecSinceContact)),
      Field(SpeedMph, shot.ball.speedMph),
      Field(AzimuthDeg, shot.ball.direction),
      Field(ElevationDeg, shot.ball.launchAngle),
      Field(SpinRpm, shot.ball.totalSpin) ]
  }

  function SpinFields(shot: ShotData, includeSpin: bool): seq<Field> {
    if includeSpin then [Field(BackRpm, shot.ball.backSpin), Field(SideRpm, shot.ball.sideSpin)] else []
  }

  /** The fixed ball position every shot message carries. */
  const PositionFields: seq<Field> :=
    [ Field(IsLeft, "0"),
      Field(WorldStartX, "-53.53"),
      Field(WorldStartY, "91.40"),
      Field(WorldStartZ, "-477.94") ]

  function ClubFields(shot: ShotData): seq<Field> {
    if shot.clubSpeed.Some? then
      [Field(Hmt, "1"), Field(ClubSpeedMph, shot.clubSpeed.value)]
      + Optional(HPathDeg, shot.path) + Optional(VPathDeg, shot.attackAngle)
      + Optional(FaceTDeg, shot.faceToTarget)
    else [Field(Hmt, "0")]
  }

  function ShotFields(shot: ShotData, msecSinceContact: int, includeSpin: bool): seq<Field> {
    HeadFields(shot, msecSinceContact) + SpinFields(shot, includeSpin) + PositionFields + ClubFields(shot)
  }

  /** The `0H` shot message. */
  function BuildShotMessage(shot: ShotData, msecSinceContact: int, includeSpin: bool): string {
    Render(Message("0H", ShotFields(shot, msecSinceContact, includeSpin)))
  }

  function StatusFields(flags: int, balls: int): seq<Field> {
    [Field(Flags, IntToDecimal(flags)), Field(Balls, IntToDecimal(balls))]
    + (if balls > 0 then [Field(Ball1, "198,206,12")] else [])
  }

  /** The `0M` device status message. */
  function BuildStatusMessage(flags: int, balls: int): string {
    Render(Message("0M", StatusFields(flags, balls)))
  }

  lemma ShotWellFormed(shot: ShotData, msecSinceContact: int, includeSpin: bool)
    requires Formatted(shot)
    ensures WellFormed(Message("0H", ShotFields(shot, msecSinceContact, includeSpin)))
  {
    DecimalHasNoNewline(shot.shotId);
    DecimalHasNoNewline(msecSinceContact);
    var h := HeadFields(shot, msecSinceContact);
    var s := SpinFields(shot, includeSpin);
    var t := ClubFields(shot);
    var fs := h + s + PositionFields + t;
    assert '\n' !in "0" && '\n' !in "1";
    assert forall i :: 0 <= i < |h| ==> '\n' !in h[i].value;
    assert forall i :: 0 <= i < |s| ==> '\n' !in s[i].value;
    assert forall i :: 0 <= i < |PositionFields| ==> '\n' !in PositionFields[i].value;
    assert forall i :: 0 <= i < |t| ==> '\n' !in t[i].value;
    forall i | 0 <= i < |fs| ensures '\n' !in fs[i].value {
      if i < |h| {
        assert fs[i] == h[i];
      } else if i < |h| + |s| {
        assert fs[i] == s[i - |h|];
      } else if i < |h| + |s| + |PositionFields| {
        assert fs[i] == PositionFields[i - |h| - |s|];
      } else {
        assert fs[i] == t[i - |h| - |s| - |PositionFields|];
      }
    }
  }

  /** The part of a message a key belongs to: the ball readings, the spin, the position, the club data, the status. */
  function Section(k: Key): nat {
    match k
    case ShotId | TimeSec | MsecSinceContact | SpeedMph | AzimuthDeg | ElevationDeg | SpinRpm => 0
    case BackRpm | SideRpm => 1
    case IsLeft | WorldStartX | WorldStartY | WorldStartZ => 2
    case Hmt | ClubSpeedMph | HPathDeg | VPathDeg | FaceTDeg => 3
    case Flags | Balls | Ball1 => 4
  }

  /** Every field of a list belongs to section `k`. */
  predicate AllIn(fs: seq<Field>, k: nat) {
    forall j :: 0 <= j < |fs| ==> Section(fs[j].key) == k
  }

  lemma SectionsOfParts(shot: ShotData, msecSinceContact: int, includeSpin: bool)
    ensures |HeadFields(shot, msecSinceContact)| == 7 && AllIn(HeadFields(shot, msecSinceContact), 0)
    ensures AllIn(SpinFields(shot, includeSpin), 1)
    ensures |PositionFields| == 4 && AllIn(PositionFields, 2)
    ensures AllIn(ClubFields(shot), 3)
  {
  }

  /** A shot message's fields come section by section: 7 ball readings, 2 or 0 spins, 4 position fields, then the club data. */
  lemma ShotSections(shot: ShotData, msecSinceContact: int, includeSpin: bool)
    ensures var fs := ShotFields(shot, msecSinceContact, includeSpin);
      var n := if includeSpin then 2 else 0;
      |fs| == 11 + n + |ClubFields(shot)|
      && (forall j :: 0 <= j < |fs| ==>
            Section(fs[j].key) == if j < 7 then 0 else if j < 7 + n then 1 else if j < 11 + n then 2 else 3)
      && (forall j :: 11 + n <= j < |fs| ==> fs[j] == ClubFields(shot)[j - 11 - n])
  {
    var h := HeadFields(shot, msecSinceContact);
    var s := SpinFields(shot, includeSpin);
    var t := ClubFields(shot);
    var fs := h + s + PositionFields + t;
    SectionsOfParts(shot, msecSinceContact, includeSpin);
    forall j | 0 <= j < |fs|
      ensures Section(fs[j].key) == if j < 7 then 0 else if j < 7 + |s| then 1 else if j < 11 + |s| then 2 else 3
    {
      if j < 7 {
        assert fs[j] == h[j];
      } else if j < 7 + |s| {
        assert fs[j] == s[j - 7];
      } else if j < 11 + |s| {
        assert fs[j] == PositionFields[j - 7 - |s|];
      } else {
        assert fs[j] == t[j - 11 - |s|];
      }
    }
  }

  /** A `0H` message carries the shot id and the time since contact, in its first and third lines. */
  lemma ShotMessageIdentity(shot: ShotData, msecSinceContact: int, includeSpin: bool)
    ensures var fs := ShotFields(shot, msecSinceContact, includeSpin);
      Lookup(fs, ShotId) == Some(IntToDecimal(shot.shotId))
      && Lookup(fs, MsecSinceContact) == Some(IntToDecimal(msecSinceContact))
  {
    var fs := ShotFields(shot, msecSinceContact, includeSpin);
    assert fs[0] == Field(ShotId, IntToDecimal(shot.shotId));
    assert fs[1].key == TimeSec;
    assert fs[2] == Field(MsecSinceContact, IntToDecimal(msecSinceContact));
    LookupAt(fs, ShotId, 0);
    LookupAt(fs, MsecSinceContact, 2);
  }

  /** Back and side spin are in the final reading only. */
  lemma ShotMessageSpin(shot: ShotData, msecSinceContact: int, includeSpin: bool)
    ensures var fs := ShotFields(shot, msecSinceContact, includeSpin);
      Lookup(fs, BackRpm) == (if includeSpin then Some(shot.ball.backSpin) else None)
      && Lookup(fs, SideRpm) == (if includeSpin then Some(shot.ball.sideSpin) else None)
  {
    var fs := ShotFields(shot, msecSinceContact, includeSpin);
    ShotSections(shot, msecSinceContact, includeSpin);
    if includeSpin {
      assert fs[7] == Field(BackRpm, shot.ball.backSpin) && fs[8] == Field(SideRpm, shot.ball.sideSpin);
      LookupAt(fs, BackRpm, 7);
      LookupAt(fs, SideRpm, 8);
    } else {
      LookupNone(fs, BackRpm);
      LookupNone(fs, SideRpm);
    }
  }

  /**
   * `HMT=1` with the club speed and, each when set, the path, attack angle
   * and face angle exactly when the shot has club data; `HMT=0` and no club
   * line otherwise.
   */
  lemma ShotMessageClub(shot: ShotData, msecSinceContact: int, includeSpin: bool)
    ensures var fs := ShotFields(shot, msecSinceContact, includeSpin);
      Lookup(fs, Hmt) == Some(if shot.clubSpeed.Some? then "1" else "0")
      && Lookup(fs, ClubSpeedMph) == shot.clubSpeed
      && Lookup(fs, HPathDeg) == (if shot.clubSpeed.Some? then shot.path else None)
      && Lookup(fs, VPathDeg) == (if shot.clubSpeed.Some? then shot.attackAngle else None)
      && Lookup(fs, FaceTDeg) == (if shot.clubSpeed.Some? then shot.faceToTarget else None)
  {
    var fs := ShotFields(shot, msecSinceContact, includeSpin);
    var t := ClubFields(shot);
    var k := if includeSpin then 13 else 11;
    ShotSections(shot, msecSinceContact, includeSpin);
    assert fs[k] == t[0];
    LookupAt(fs, Hmt, k);
    if shot.clubSpeed.Some? {
      assert fs[k + 1] == t[1];
      LookupAt(fs, ClubSpeedMph, k + 1);
      ClubOptionals(shot, fs, k);
    } else {
      assert |t| == 1;
      LookupNone(fs, ClubSpeedMph);
      LookupNone(fs, HPathDeg);
      LookupNone(fs, VPathDeg);
      LookupNone(fs, FaceTDeg);
    }
  }

  /** The optional club lines, found past the head of the club section. */
  lemma ClubOptionals(shot: ShotData, fs: seq<Field>, k: nat)
    requires shot.clubSpeed.Some?
    requires k + |ClubFields(shot)| == |fs|
    requires forall j :: k <= j < |fs| ==> fs[j] == ClubFields(shot)[j - k]
    requires forall j :: 0 <= j < k ==> Section(fs[j].key) != 3
    ensures Lookup(fs, HPathDeg) == shot.path
    ensures Lookup(fs, VPathDeg) == shot.attackAngle
    ensures Lookup(fs, FaceTDeg) == shot.faceToTarget
  {
    var hp := Optional(HPathDeg, shot.path);
    var va := Optional(VPathDeg, shot.attackAngle);
    var fa := Optional(FaceTDeg, shot.faceToTarget);
    var t := ClubFields(shot);
    assert t == [Field(Hmt, "1"), Field(ClubSpeedMph, shot.clubSpeed.value)] + hp + va + fa;
    var i := k + 2;
    if shot.path.Some? {
      assert fs[i] == t[2];
      LookupAt(fs, HPathDeg, i);
    } else {
      LookupNone(fs, HPathDeg);
    }
    i := i + |hp|;
    if shot.attackAngle.Some? {
      assert fs[i] == t[2 + |hp|];
      LookupAt(fs, VPathDeg, i);
    } else {
      LookupNone(fs, VPathDeg);
    }
    i := i + |va|;
    if shot.faceToTarget.Some? {
      assert fs[i] == t[2 + |hp| + |va|];
      LookupAt(fs, FaceTDeg, i);
    } else {
      LookupNone(fs, FaceTDeg);
    }
  }

  /** What a `0M` message carries: the flags and ball count, and a ball position exactly when a ball is present. */
  lemma StatusMessageContents(flags: int, balls: int)
    ensures var fs := StatusFields(flags, balls);
      Lookup(fs, Flags) == Some(IntToDecimal(flags))
      && Lookup(fs, Balls) == Some(IntToDecimal(balls))
      && (Lookup(fs, Ball1).Some? <==> balls > 0)
  {
    var fs := StatusFields(flags, balls);
    LookupAt(fs, Flags, 0);
    LookupAt(fs, Balls, 1);
    if balls > 0 {
      LookupAt(fs, Ball1, 2);
    } else {
      LookupNone(fs, Ball1);
    }
  }

  /** The text of a shot message reads back as its fields, in order, behind the `0H` header. */
  lemma ShotMessageReadsBack(shot: ShotData, msecSinceContact: int, includeSpin: bool)
    requires Formatted(shot)
    ensures ParseMessage(BuildShotMessage(shot, msecSinceContact, includeSpin))
      == Some(Reading("0H", Pairs(ShotFields(shot, msecSinceContact, includeSpin))))
  {
    ShotWellFormed(shot, msecSinceContact, includeSpin);
    RenderParse(Message("0H", ShotFields(shot, msecSinceContact, includeSpin)));
  }

  /** The text of a status message reads back as its fields, in order, behind the `0M` header. */
  lemma StatusMessageReadsBack(flags: int, balls: int)
    ensures ParseMessage(BuildStatusMessage(flags, balls)) == Some(Reading("0M", Pairs(StatusFields(flags, balls))))
  {
    DecimalHasNoNewline(flags);
    DecimalHasNoNewline(balls);
    var fs := StatusFields(flags, balls);
    assert '\n' !in "198,206,12";
    assert forall i :: 0 <= i < |fs| ==> '\n' !in fs[i].value;
    RenderParse(Message("0M", fs));
  }

  /** The early reading of a shot: 200 ms after contact, no spin. */
  function EarlyReading(shot: ShotData): string {
    BuildShotMessage(shot, 200, false)
  }

  /** The final reading of a shot: 1000 ms after contact, with back and side spin. */
  function FinalReading(shot: ShotData): string {
    BuildShotMessage(shot, 1000, true)
  }

  // The simulator.

  datatype Club = Driver | SevenIron | Wedge

  /** The generator a shot type selects; an unknown type fires a driver shot. */
  function ClubFor(shotType: string): (c: Club)
    ensures shotType != "7iron" && shotType != "wedge" ==> c == Driver
  {
    if shotType == "driver" then Driver
    else if shotType == "7iron" then SevenIron
    else if shotType == "wedge" then Wedge
    else Driver
  }

  /** The packets of one message to one client, sleeping `delayMs` between consecutive packets. */
  function SendTrace(client: nat, data: string, size: PacketSize, delayMs: real): seq<Event> {
    Burst(client, Chunks(Utf8Encode(data), size), [Sleep(delayMs)])
  }

  /** The status a client receives on connecting: ready, with a ball in place. */
  const ReadyStatus := BuildStatusMessage(7, 1)

  class Simulator {
    const packetSize: PacketSize
    const packetDelayMs: real
    const earlyReadingDelayMs: real
    const finalReadingDelayMs: real
    var shotId: int
    /** The connected clients (their writers), in connection order. */
    var clients: seq<nat>
    /** Everything written and slept so far. */
    var trace: seq<Event>

    constructor(packetSize: PacketSize, packetDelayMs: real, earlyReadingDelayMs: real, finalReadingDelayMs: real)
      ensures this.packetSize == packetSize && this.packetDelayMs == packetDelayMs
      ensures this.earlyReadingDelayMs == earlyReadingDelayMs && this.finalReadingDelayMs == finalReadingDelayMs
      ensures shotId == 0 && clients == [] && trace == []
    {
      this.packetSize := packetSize;
      this.packetDelayMs := packetDelayMs;
      this.earlyReadingDelayMs := earlyReadingDelayMs;
      this.finalReadingDelayMs := finalReadingDelayMs;
      shotId := 0;
      clients := [];
      trace := [];
    }

    /** A message to one client, then the final-reading delay, then another: the early and the final reading of a shot. */
    function ReadingPair(client: nat, early: string, final: string): seq<Event> {
      SendTrace(client, early, packetSize, packetDelayMs)
      + [Sleep(finalReadingDelayMs)]
      + SendTrace(client, final, packetSize, packetDelayMs)
    }

    /** The two readings to each client in turn. */
    function ShotRound(cs: seq<nat>, early: string, final: string): seq<Event> {
      if cs == [] then [] else ShotRound(cs[..|cs| - 1], early, final) + ReadingPair(cs[|cs| - 1], early, final)
    }

    /** One message to each client in turn. */
    function Broadcast(cs: seq<nat>, data: string): seq<Event> {
      if cs == [] then [] else Broadcast(cs[..|cs| - 1], data) + SendTrace(cs[|cs| - 1], data, packetSize, packetDelayMs)
    }

    lemma RoundSnoc(cs: seq<nat>, i: nat, early: string, final: string)
      requires i < |cs|
      ensures ShotRound(cs[..i + 1], early, final) == ShotRound(cs[..i], early, final) + ReadingPair(cs[i], early, final)
      ensures Broadcast(cs[..i + 1], early) == Broadcast(cs[..i], early) + SendTrace(cs[i], early, packetSize, packetDelayMs)
    {
      assert cs[..i + 1][..i] == cs[..i];
    }

    /** Writes `data` as packets of at most `packetSize` bytes, sleeping between packets. */
    method SendPackets(client: nat, data: string)
      modifies this`trace
      ensures trace == old(trace) + SendTrace(client, data, packetSize, packetDelayMs)
    {
      var encoded := Utf8Encode(data);
      var gap := [Sleep(packetDelayMs)];
      var offset := 0;
      var packetNum := 0;
      while offset < |encoded|
        invariant 0 <= offset
        invariant old(trace) + Burst(client, Chunks(encoded, packetSize), gap)
          == trace + Burst(client, Chunks(Rest(encoded, offset), packetSize), gap)
        decreases |encoded| - offset
      {
        var chunk := encoded[offset..Min(offset + packetSize, |encoded|)];
        ghost var before := trace;
        BurstStep(before, client, encoded, offset, packetSize, gap);
        offset := offset + packetSize;
        packetNum := packetNum + 1;
        trace := trace + [Packet(client, chunk)];
        if offset < |encoded| {
          trace := trace + gap;
        }
        assert trace == before + [Packet(client, chunk)] + (if offset < |encoded| then gap else []);
      }
    }

    /** A client connects: it joins the list and receives the ready status (FLAGS=7, BALLS=1). */
    method Connect(client: nat)
      modifies this`clients, this`trace
      ensures clients == old(clients) + [client]
      ensures trace == old(trace) + SendTrace(client, ReadyStatus, packetSize, packetDelayMs)
    {
      clients := clients + [client];
      SendPackets(client, ReadyStatus);
    }

    /** A client disconnects: its writer leaves the list. */
    method Disconnect(client: nat)
      requires client in clients
      modifies this`clients
      ensures clients == RemoveFirst(old(clients), client)
    {
      clients := RemoveFirst(clients, client);
    }

    /**
     * Fires a shot of the given type at every client; `generate` stands for
     * the random readings of a club's generator. With no client connected
     * nothing happens, not even a new shot id.
     */
    method FireShot(shotType: string, generate: (Club, int) -> Ball)
      modifies this`shotId, this`trace
      ensures old(clients) == [] ==> shotId == old(shotId) && trace == old(trace)
      ensures old(clients) != [] ==> shotId == old(shotId) + 1
      ensures old(clients) != [] ==>
        var shot := ShotData(shotId, generate(ClubFor(shotType), shotId), None, None, None, None);
        trace == old(trace) + ShotRound(clients, EarlyReading(shot), FinalReading(shot))
    {
      if clients == [] {
        return;
      }
      shotId := shotId + 1;
      var shot := ShotData(shotId, generate(ClubFor(shotType), shotId), None, None, None, None);
      SendReadings(EarlyReading(shot), FinalReading(shot));
    }

    /** The loop of `FireShot`: to each client in turn, the early reading, the final-reading delay, the final reading. */
    method SendReadings(early: string, final: string)
      modifies this`trace
      ensures trace == old(trace) + ShotRound(clients, early, final)
    {
      var i := 0;
      while i < |clients|
        invariant 0 <= i <= |clients|
        invariant trace == old(trace) + ShotRound(clients[..i], early, final)
      {
        RoundSnoc(clients, i, early, final);
        SendPair(clients[i], early, final);
        SeqConcatAssoc(old(trace), ShotRound(clients[..i], early, final), ReadingPair(clients[i], early, final));
        i := i + 1;
      }
      assert clients[..|clients|] == clients;
    }

    /** One client's turn: the early reading, the final-reading delay, the final reading. */
    method SendPair(writer: nat, early: string, final: string)
      modifies this`trace
      ensures trace == old(trace) + ReadingPair(writer, early, final)
    {
      SendPackets(writer, early);
      trace := trace + [Sleep(finalReadingDelayMs)];
      SendPackets(writer, final);
    }

    /** Sends the status to every client: FLAGS 7 when ready (1 otherwise), BALLS 1 when a ball is present (0 otherwise). */
    method SendStatus(ready: bool, ball: bool)
      modifies this`trace
      ensures trace == old(trace) + Broadcast(clients, BuildStatusMessage(if ready then 7 else 1, if ball then 1 else 0))
    {
      var flags := if ready then 7 else 1;
      var balls := if ball then 1 else 0;
      SendToAll(BuildStatusMessage(flags, balls));
    }

    /** The loop of `SendStatus`: the same message to each client in turn. */
    method SendToAll(message: string)
      modifies this`trace
      ensures trace == old(trace) + Broadcast(clients, message)
    {
      var i := 0;
      while i < |clients|
        invariant 0 <= i <= |clients|
        invariant trace == old(trace) + Broadcast(clients[..i], message)
      {
        RoundSnoc(clients, i, message, message);
        SendPackets(clients[i], message);
        i := i + 1;
      }
      assert clients[..|clients|] == clients;
    }

    /**
     * Every client receives, byte for byte, the early reading followed by
     * the final reading, once for each time it is in the list; a client not
     * in the list receives nothing.
     */
    lemma {:induction false} ShotRoundDelivers(cs: seq<nat>, early: string, final: string, c: nat)
      ensures BytesTo(c, ShotRound(cs, early, final)) == Repeat(Utf8Encode(early) + Utf8Encode(final), Occurrences(cs, c))
      decreases |cs|
    {
      if cs != [] {
        var init := cs[..|cs| - 1];
        var last := cs[|cs| - 1];
        var e := Utf8Encode(early) + Utf8Encode(final);
        ShotRoundDelivers(init, early, final, c);
        PairDelivers(last, early, final);
        TraceAppend(ShotRound(init, early, final), ReadingPair(last, early, final));
        assert BytesTo(c, ShotRound(cs, early, final))
          == Repeat(e, Occurrences(init, c)) + (if c == last then e else []);
        if c == last {
          assert Repeat(e, Occurrences(cs, c)) == Repeat(e, Occurrences(init, c)) + e;
        } else {
          assert Repeat(e, Occurrences(init, c)) + [] == Repeat(e, Occurrences(init, c));
        }
      }
    }

    /** One reading pair: both readings to its client and nothing to anyone else. */
    lemma PairDelivers(client: nat, early: string, final: string)
      ensures forall c :: BytesTo(c, ReadingPair(client, early, final)) == (if c == client then Utf8Encode(early) + Utf8Encode(final) else [])
    {
      var a := SendTrace(client, early, packetSize, packetDelayMs);
      var b := SendTrace(client, final, packetSize, packetDelayMs);
      var s: seq<Event> := [Sleep(finalReadingDelayMs)];
      SendDelivers(client, early);
      SendDelivers(client, final);
      TraceAppend(a, s);
      TraceAppend(a + s, b);
      assert forall c :: BytesTo(c, s) == [] + BytesTo(c, []);
    }

    /** One message's packets carry exactly its encoding to its client. */
    lemma SendDelivers(client: nat, data: string)
      ensures forall c :: BytesTo(c, SendTrace(client, data, packetSize, packetDelayMs)) == (if c == client then Utf8Encode(data) else [])
    {
      var e := Utf8Encode(data);
      BurstDelivers(client, Chunks(e, packetSize), [Sleep(packetDelayMs)]);
      ChunksReassemble(e, packetSize);
    }

    /** One reading pair sleeps only between packets and before the final reading. */
    lemma PairSleeps(client: nat, early: string, final: string)
      ensures SleepsAmong(ReadingPair(client, early, final), {packetDelayMs, finalReadingDelayMs})
    {
      var ds := {packetDelayMs, finalReadingDelayMs};
      var a := SendTrace(client, early, packetSize, packetDelayMs);
      var b := SendTrace(client, final, packetSize, packetDelayMs);
      BurstSleeps(client, Chunks(Utf8Encode(early), packetSize), [Sleep(packetDelayMs)], ds);
      BurstSleeps(client, Chunks(Utf8Encode(final), packetSize), [Sleep(packetDelayMs)], ds);
      SleepsAmongAppend(a, [Sleep(finalReadingDelayMs)], ds);
      SleepsAmongAppend(a + [Sleep(finalReadingDelayMs)], b, ds);
    }

    /** A shot round only ever sleeps between packets or before the final reading: the early-reading delay is never waited for. */
    lemma {:induction false} ShotRoundSleeps(cs: seq<nat>, early: string, final: string)
      ensures SleepsAmong(ShotRound(cs, early, final), {packetDelayMs, finalReadingDelayMs})
      decreases |cs|
    {
      if cs != [] {
        var init := cs[..|cs| - 1];
        ShotRoundSleeps(init, early, final);
        PairSleeps(cs[|cs| - 1], early, final);
        SleepsAmongAppend(ShotRound(init, early, final), ReadingPair(cs[|cs| - 1], early, final),
                          {packetDelayMs, finalReadingDelayMs});
      }
    }
  }

  /** Every sleep in the trace lasts one of the given durations. */
  predicate SleepsAmong(trace: seq<Event>, ds: set<real>) {
    forall i :: 0 <= i < |trace| && trace[i].Sleep? ==> trace[i].ms in ds
  }

  lemma SleepsAmongAppend(a: seq<Event>, b: seq<Event>, ds: set<real>)
    requires SleepsAmong(a, ds) && SleepsAmong(b, ds)
    ensures SleepsAmong(a + b, ds)
  {
    forall i | 0 <= i < |a + b| && (a + b)[i].Sleep? ensures (a + b)[i].ms in ds {
      if i >= |a| {
        assert (a + b)[i] == b[i - |a|];
      }
    }
  }

  lemma {:induction false} BurstSleeps(client: nat, cs: seq<seq<byte>>, gap: seq<Event>, ds: set<real>)
    requires SleepsAmong(gap, ds)
    ensures SleepsAmong(Burst(client, cs, gap), ds)
    decreases |cs|
  {
    if |cs| > 1 {
      BurstSleeps(client, cs[1..], gap, ds);
      var head: seq<Event> := [Packet(client, cs[0])];
      assert SleepsAmong(head, ds);
      SleepsAmongAppend(head, gap, ds);
      SleepsAmongAppend(head + gap, Burst(client, cs[1..], gap), ds);
    }
  }

  function Occurrences(cs: seq<nat>, c: nat): nat {
    if cs == [] then 0 else Occurrences(cs[..|cs| - 1], c) + (if cs[|cs| - 1] == c then 1 else 0)
  }

  function Repeat(b: seq<byte>, n: nat): seq<byte> {
    if n == 0 then [] else Repeat(b, n - 1) + b
  }

  lemma {:induction false} OccurrencesAbsent(cs: seq<nat>, c: nat)
    requires c !in cs
    ensures Occurrences(cs, c) == 0
    decreases |cs|
  {
    if cs != [] {
      assert c !in cs[..|cs| - 1];
      OccurrencesAbsent(cs[..|cs| - 1], c);
    }
  }

}
