/**
 The change-stream handler for analog points (src/cs_data_processor/cs_data_processor.js:496-1215).
 Values are reals.  A queued point update is applied before the next change of that point is looked up.
 */
module PointProcessor {
  import opened Options

  const LOWEST_PRIORITY_THAT_BEEPS: int := 1

  /** The configured fields of an analog document of realtimeData. */
  datatype Config = Config(
    kconv1: real, kconv2: real, zeroDeadband: Option<real>,
    hiLimit: Option<real>, loLimit: Option<real>, hysteresis: real, alarmDisabled: bool,
    isEvent: bool, priority: int,
    historianPeriod: Option<real>, historianDeadBand: Option<real>)

  /** The processed fields of the document.  A `None` range or time tag is a missing or null property. */
  datatype Point = Point(
    value: real, alarmRange: Option<int>, alarmed: bool, historianLastValue: Option<real>,
    timeTag: Option<int>, timeTagAlarm: Option<int>, invalid: bool, overflow: bool, transient: bool, updatesCnt: nat)

  datatype SourceTime = NoTime | Before1900 | From1900

  /** A `sourceDataUpdate` with a numeric value. */
  datatype Update = Update(
    valueAtSource: real, sourceTime: SourceTime,
    invalidAtSource: bool, notTopicalAtSource: bool, overflowAtSource: bool, transientAtSource: bool,
    rangeCheck: bool, isHistorical: bool, isNotForHistorical: bool)

  /** Entries put into the soeData collection. */
  datatype SoeEntry =
    | LimitEvent(value: real, range: int, ack: bool)
    | ValueEvent(value: real)

  /** Entries of the queue of realtimeData updates. */
  datatype RtOp =
    | BeepUpdate(important: bool)
    | PointUpdate(point: Point)

  function Abs(x: real): real {
    if x < 0.0 then -x else x
  }

  predicate LimitsEnabled(c: Config) {
    c.hiLimit.Some? && c.loLimit.Some? && !c.alarmDisabled
  }

  /** Conversion factors and the zero dead band. */
  function Convert(c: Config, raw: real): real {
    var v := raw * c.kconv1 + c.kconv2;
    if c.zeroDeadband.Some? && c.zeroDeadband.value != 0.0 && Abs(v) < c.zeroDeadband.value then 0.0 else v
  }

  predicate Above(c: Config, v: real)
    requires LimitsEnabled(c)
  {
    v > c.hiLimit.value + c.hysteresis
  }

  predicate Below(c: Config, v: real)
    requires LimitsEnabled(c)
  {
    v < c.loLimit.value - c.hysteresis
  }

  predicate Inside(c: Config, v: real)
    requires LimitsEnabled(c)
  {
    c.loLimit.value + c.hysteresis < v < c.hiLimit.value - c.hysteresis
  }

  /** The alarm range of a value: -1, 0 or 1, or the stored one inside the hysteresis bands. */
  function NextRange(c: Config, stored: Option<int>, v: real): int
    requires LimitsEnabled(c)
  {
    if Above(c, v) then 1
    else if Below(c, v) then -1
    else if Inside(c, v) then 0
    else if stored.Some? then stored.value else 0
  }

  predicate Invalid(u: Update) {
    u.invalidAtSource || u.notTopicalAtSource || u.overflowAtSource || u.transientAtSource
  }

  predicate Soe(c: Config, u: Update) {
    c.isEvent && u.sourceTime.From1900?
  }

  predicate LimitCrossed(c: Config, p: Point, v: real) {
    LimitsEnabled(c) && p.alarmRange != Some(NextRange(c, p.alarmRange, v))
  }

  function NextAlarmed(c: Config, p: Point, v: real): bool {
    if !LimitsEnabled(c) then p.alarmed
    else if LimitCrossed(c, p, v) && NextRange(c, p.alarmRange, v) != 0 then true
    else if !Above(c, v) && !Below(c, v) && Inside(c, v) then false
    else p.alarmed
  }

  predicate ValueEventDue(c: Config, p: Point, u: Update, v: real) {
    !c.alarmDisabled && ((c.isEvent && !Invalid(u) && v != p.value) || Soe(c, u))
  }

  /** Whether the change is worth writing back.  Two dates are never the same object, so a source time always counts. */
  predicate Persists(c: Config, p: Point, u: Update, v: real) {
    && (Soe(c, u) || u.rangeCheck || v != p.value || !u.sourceTime.NoTime? || p.timeTag.None?
        || Invalid(u) != p.invalid)
    && !u.isHistorical
  }

  predicate Historises(c: Config, p: Point, u: Update, v: real) {
    c.historianPeriod.Some? ==>
      && c.historianPeriod.value >= 0.0 && !u.isNotForHistorical
      && !(c.historianDeadBand.Some? && p.historianLastValue.Some? && c.historianDeadBand.value > 0.0
           && Abs(v - p.historianLastValue.value) < Abs(c.historianDeadBand.value))
  }

  predicate Beeps(c: Config, p: Point, v: real) {
    !c.alarmDisabled && NextAlarmed(c, p, v) && !p.alarmed && c.priority <= LOWEST_PRIORITY_THAT_BEEPS
  }

  /** The document after its update has been written back. */
  function Updated(c: Config, p: Point, u: Update, now: int): Point {
    var v := Convert(c, u.valueAtSource);
    var alarmed := NextAlarmed(c, p, v);
    Point(v,
          Some(if LimitsEnabled(c) then NextRange(c, p.alarmRange, v) else 0),
          !c.alarmDisabled && alarmed,
          if Historises(c, p, u, v) then Some(v) else p.historianLastValue,
          Some(now),
          if !c.alarmDisabled && alarmed && !p.alarmed then Some(now) else p.timeTagAlarm,
          Invalid(u),
          u.overflowAtSource,
          u.transientAtSource,
          p.updatesCnt + 1)
  }

  /**
   The document as it is printed for the realtime table: range, alarm time and last sample are those before the
   update.
   */
  function RowOf(c: Config, p: Point, u: Update, now: int): Point {
    var v := Convert(c, u.valueAtSource);
    p.(value := v, timeTag := Some(now), invalid := Invalid(u), overflow := u.overflowAtSource,
       transient := u.transientAtSource, updatesCnt := p.updatesCnt + 1, alarmed := NextAlarmed(c, p, v))
  }

  function SqlRowsOf(c: Config, p: Point, u: Update, now: int): seq<Point> {
    if Persists(c, p, u, Convert(c, u.valueAtSource)) then [RowOf(c, p, u, now)] else []
  }

  function SoeOf(c: Config, p: Point, u: Update): seq<SoeEntry> {
    var v := Convert(c, u.valueAtSource);
    (if LimitCrossed(c, p, v) then [LimitEvent(v, NextRange(c, p.alarmRange, v), !NextAlarmed(c, p, v))] else [])
    + (if ValueEventDue(c, p, u, v) then [ValueEvent(v)] else [])
  }

  function RtOpsOf(c: Config, p: Point, u: Update, now: int): seq<RtOp> {
    var v := Convert(c, u.valueAtSource);
    if !Persists(c, p, u, v) then []
    else (if Beeps(c, p, v) then [BeepUpdate(c.priority == 0)] else []) + [PointUpdate(Updated(c, p, u, now))]
  }

  function HistOf(c: Config, p: Point, u: Update): seq<real> {
    var v := Convert(c, u.valueAtSource);
    if Persists(c, p, u, v) && Historises(c, p, u, v) then [v] else []
  }

  // ---------------------------------------------------------------- the program

  class ChangeHandler {
    var soeData: seq<SoeEntry>
    var mongoRtDataQueue: seq<RtOp>
    var sqlHistQueue: seq<real>
    var sqlRtDataQueue: seq<Point>

    constructor ()
      ensures soeData == [] && mongoRtDataQueue == [] && sqlHistQueue == [] && sqlRtDataQueue == []
    {
      soeData, mongoRtDataQueue, sqlHistQueue, sqlRtDataQueue := [], [], [], [];
    }

    /**
     Limits and hysteresis (lines 777-863): the alarm range and flag, with an SOE entry when the range differs
     from the stored one.
     */
    method CheckLimits(c: Config, fullDocument: Point, value: real) returns (alarmRange: int, alarmed: bool)
      modifies this`soeData
      ensures alarmRange == (if LimitsEnabled(c) then NextRange(c, fullDocument.alarmRange, value) else 0)
      ensures alarmed == NextAlarmed(c, fullDocument, value)
      ensures soeData == old(soeData)
              + (if LimitCrossed(c, fullDocument, value) then [LimitEvent(value, alarmRange, !alarmed)] else [])
    {
      alarmRange, alarmed := 0, fullDocument.alarmed;
      if c.hiLimit.Some? && c.loLimit.Some? && !c.alarmDisabled {
        if value > c.hiLimit.value + c.hysteresis {
          alarmRange := 1;
        } else if value < c.loLimit.value - c.hysteresis {
          alarmRange := -1;
        } else if value < c.hiLimit.value - c.hysteresis && value > c.loLimit.value + c.hysteresis {
          alarmed := false;
          alarmRange := 0;
        } else if fullDocument.alarmRange.Some? && fullDocument.alarmRange.value != 0 {
          alarmRange := fullDocument.alarmRange.value;
        }
        if fullDocument.alarmRange != Some(alarmRange) {
          if alarmRange != 0 {
            alarmed := true;
          }
          soeData := soeData + [LimitEvent(value, alarmRange, !alarmed)];
        }
      }
    }

    /** Historian period and dead band (lines 994-1025). */
    method InsertsIntoHistorian(c: Config, fullDocument: Point, u: Update,
                                value: real) returns (insertIntoHistorian: bool)
      ensures insertIntoHistorian == Historises(c, fullDocument, u, value)
    {
      insertIntoHistorian := true;
      if c.historianPeriod.Some? {
        if c.historianPeriod.value < 0.0 || u.isNotForHistorical {
          insertIntoHistorian := false;
        } else if c.historianDeadBand.Some? && fullDocument.historianLastValue.Some?
          && c.historianDeadBand.value > 0.0 {
          if Abs(value - fullDocument.historianLastValue.value) < Abs(c.historianDeadBand.value) {
            insertIntoHistorian := false;
          }
        }
      }
    }

    /** Beep request for a new alarm (lines 944-982). */
    method QueueBeep(c: Config, fullDocument: Point, alarmed: bool)
      modifies this`mongoRtDataQueue
      ensures mongoRtDataQueue == old(mongoRtDataQueue)
              + (if !c.alarmDisabled && alarmed && !fullDocument.alarmed && c.priority <= LOWEST_PRIORITY_THAT_BEEPS
                 then [BeepUpdate(c.priority == 0)] else [])
    {
      if !c.alarmDisabled && alarmed && !fullDocument.alarmed {
        if c.priority == 0 {
          mongoRtDataQueue := mongoRtDataQueue + [BeepUpdate(true)];
        } else if c.priority <= LOWEST_PRIORITY_THAT_BEEPS {
          mongoRtDataQueue := mongoRtDataQueue + [BeepUpdate(false)];
        }
      }
    }

    /** Queues the changed document, its historian sample and its row of the realtime table (lines 942-1204). */
    method WriteBack(c: Config, fullDocument: Point, u: Update, now: int, value: real, alarmRange: int, alarmed: bool,
                     invalid: bool)
      requires value == Convert(c, u.valueAtSource) && invalid == Invalid(u)
      requires alarmRange == if LimitsEnabled(c) then NextRange(c, fullDocument.alarmRange, value) else 0
      requires alarmed == NextAlarmed(c, fullDocument, value)
      modifies this`mongoRtDataQueue, this`sqlHistQueue, this`sqlRtDataQueue
      ensures mongoRtDataQueue == old(mongoRtDataQueue)
              + (if Beeps(c, fullDocument, value) then [BeepUpdate(c.priority == 0)] else [])
              + [PointUpdate(Updated(c, fullDocument, u, now))]
      ensures sqlHistQueue == old(sqlHistQueue) + (if Historises(c, fullDocument, u, value) then [value] else [])
      ensures sqlRtDataQueue == old(sqlRtDataQueue) + [RowOf(c, fullDocument, u, now)]
    {
      QueueBeep(c, fullDocument, alarmed);
      var insertIntoHistorian := InsertsIntoHistorian(c, fullDocument, u, value);
      var update := fullDocument.(
        value := value,
        historianLastValue := if insertIntoHistorian then Some(value) else fullDocument.historianLastValue,
        timeTag := Some(now), invalid := invalid, overflow := u.overflowAtSource, transient := u.transientAtSource,
        updatesCnt := fullDocument.updatesCnt + 1, alarmRange := Some(alarmRange), alarmed := if c.alarmDisabled
          then false else alarmed);
      if !c.alarmDisabled && alarmed && !fullDocument.alarmed {
        update := update.(timeTagAlarm := Some(now));
      }
      mongoRtDataQueue := mongoRtDataQueue + [PointUpdate(update)];
      if insertIntoHistorian {
        sqlHistQueue := sqlHistQueue + [value];
      }
      var row := fullDocument.(value := value, timeTag := Some(now), invalid := invalid,
                               overflow := u.overflowAtSource, transient := u.transientAtSource,
                               updatesCnt := fullDocument.updatesCnt + 1, alarmed := alarmed);
      sqlRtDataQueue := sqlRtDataQueue + [row];
    }

    method OnAnalogChange(c: Config, fullDocument: Point, u: Update, now: int)
      modifies this
      ensures soeData == old(soeData) + SoeOf(c, fullDocument, u)
      ensures mongoRtDataQueue == old(mongoRtDataQueue) + RtOpsOf(c, fullDocument, u, now)
      ensures sqlHistQueue == old(sqlHistQueue) + HistOf(c, fullDocument, u)
      ensures sqlRtDataQueue == old(sqlRtDataQueue) + SqlRowsOf(c, fullDocument, u, now)
    {
      var isSOE := u.sourceTime.From1900? && c.isEvent;
      var invalid := u.invalidAtSource;
      invalid := invalid || u.notTopicalAtSource;
      invalid := invalid || u.overflowAtSource;
      invalid := invalid || u.transientAtSource;

      var value := u.valueAtSource * c.kconv1 + c.kconv2;
      if c.zeroDeadband.Some? && c.zeroDeadband.value != 0.0 && Abs(value) < c.zeroDeadband.value {
        value := 0.0;
      }
      var alarmRange, alarmed := CheckLimits(c, fullDocument, value);
      Emit(c, fullDocument, u, now, value, alarmRange, alarmed, invalid, isSOE);
    }

    /** The event for a change of value, and the updates when the change is kept (lines 864-1204). */
    method Emit(c: Config, fullDocument: Point, u: Update, now: int, value: real, alarmRange: int, alarmed: bool,
                invalid: bool, isSOE: bool)
      requires value == Convert(c, u.valueAtSource) && invalid == Invalid(u) && isSOE == Soe(c, u)
      requires alarmRange == if LimitsEnabled(c) then NextRange(c, fullDocument.alarmRange, value) else 0
      requires alarmed == NextAlarmed(c, fullDocument, value)
      modifies this
      ensures soeData == old(soeData) + (if ValueEventDue(c, fullDocument, u, value) then [ValueEvent(value)] else [])
      ensures mongoRtDataQueue == old(mongoRtDataQueue) + RtOpsOf(c, fullDocument, u, now)
      ensures sqlHistQueue == old(sqlHistQueue) + HistOf(c, fullDocument, u)
      ensures sqlRtDataQueue == old(sqlRtDataQueue) + SqlRowsOf(c, fullDocument, u, now)
    {
      if !c.alarmDisabled && ((c.isEvent && !invalid && value != fullDocument.value) || isSOE) {
        soeData := soeData + [ValueEvent(value)];
      }
      if (isSOE || u.rangeCheck || value != fullDocument.value || u.sourceTime != NoTime
          || fullDocument.timeTag.None? || invalid != fullDocument.invalid) && !u.isHistorical {
        WriteBack(c, fullDocument, u, now, value, alarmRange, alarmed, invalid);
      }
    }
  }

  // ---------------------------------------------------------------- runs of one point

  /**
   What can happen to the document: a source update, an operator's acknowledgement, or the periodic
   invalidation of silent points.
   */
  datatype Event = Change(u: Update, now: int) | Acknowledge | Invalidate

  function Step(c: Config, p: Point, e: Event): Point {
    match e
    case Change(u, now) => if Persists(c, p, u, Convert(c, u.valueAtSource)) then Updated(c, p, u, now) else p
    case Acknowledge => p.(alarmed := false)
    case Invalidate => p.(invalid := true)
  }

  predicate EmitsLimitEvent(c: Config, p: Point, e: Event) {
    e.Change? && LimitCrossed(c, p, Convert(c, e.u.valueAtSource))
  }

  function Run(c: Config, p: Point, es: seq<Event>): Point
    decreases |es|
  {
    if es == [] then p else Run(c, Step(c, p, es[0]), es[1..])
  }

  function LimitEvents(c: Config, p: Point, es: seq<Event>): nat
    decreases |es|
  {
    if es == [] then 0 else (if EmitsLimitEvent(c, p, es[0]) then 1 else 0) + LimitEvents(c, Step(c, p, es[0]), es[1..])
  }

  /** Which events of a run change the stored alarm range. */
  function RangeMarks(c: Config, p: Point, es: seq<Event>): (marks: seq<bool>)
    ensures |marks| == |es|
    decreases |es|
  {
    if es == [] then [] else [Step(c, p, es[0]).alarmRange != p.alarmRange] + RangeMarks(c, Step(c, p, es[0]), es[1..])
  }

  function Count(marks: seq<bool>): nat
    decreases |marks|
  {
    if marks == [] then 0 else (if marks[0] then 1 else 0) + Count(marks[1..])
  }

  function RangeChanges(c: Config, p: Point, es: seq<Event>): nat {
    Count(RangeMarks(c, p, es))
  }

  /** Events of historical backfill that cross a limit: they are reported but never written back. */
  function BackfillEvents(c: Config, p: Point, es: seq<Event>): nat
    decreases |es|
  {
    if es == [] then 0
    else (if EmitsLimitEvent(c, p, es[0]) && es[0].u.isHistorical then 1 else 0)
         + BackfillEvents(c, Step(c, p, es[0]), es[1..])
  }

  /** Once a point has been processed, its stored range is the range of its stored value. */
  predicate RangeSettled(c: Config, p: Point)
    requires LimitsEnabled(c)
  {
    p.timeTag.Some? ==> p.alarmRange == Some(NextRange(c, p.alarmRange, p.value))
  }

  lemma {:induction false} StepKeepsRangeSettled(c: Config, p: Point, e: Event)
    requires LimitsEnabled(c) && RangeSettled(c, p)
    ensures RangeSettled(c, Step(c, p, e))
    ensures e.Change? && !e.u.isHistorical ==> (EmitsLimitEvent(c, p, e) <==> Step(c, p, e).alarmRange != p.alarmRange)
    ensures e.Change? && e.u.isHistorical ==> Step(c, p, e) == p
  {
  }

  /**
   In every run of a point with enabled limits that starts unprocessed, limit events are as many as
   changes of the stored range, plus one per backfilled value that crosses a limit; without backfill
   the two are equal.
   */
  lemma {:induction false} OneEventPerRangeChange(c: Config, p: Point, es: seq<Event>)
    requires LimitsEnabled(c) && RangeSettled(c, p)
    ensures LimitEvents(c, p, es) == RangeChanges(c, p, es) + BackfillEvents(c, p, es)
    decreases |es|
  {
    if es != [] {
      StepKeepsRangeSettled(c, p, es[0]);
      OneEventPerRangeChange(c, Step(c, p, es[0]), es[1..]);
      assert RangeMarks(c, p, es)[1..] == RangeMarks(c, Step(c, p, es[0]), es[1..]);
    }
  }

  lemma {:induction false} RunKeepsRangeSettled(c: Config, p: Point, es: seq<Event>)
    requires LimitsEnabled(c) && RangeSettled(c, p)
    ensures RangeSettled(c, Run(c, p, es))
    decreases |es|
  {
    if es != [] {
      StepKeepsRangeSettled(c, p, es[0]);
      RunKeepsRangeSettled(c, Step(c, p, es[0]), es[1..]);
    }
  }

  /**
   After any run, delivering the same reading twice emits no event the second time; this needs the reading not
   to be backfill.
   */
  lemma {:induction false} RedeliveryIsSilent(c: Config, p: Point, es: seq<Event>, e: Event, later: int)
    requires LimitsEnabled(c) && p.timeTag.None? && e.Change?
    ensures var q := Run(c, p, es);
            EmitsLimitEvent(c, Step(c, q, e), e.(now := later)) <==> e.u.isHistorical && EmitsLimitEvent(c, q, e)
  {
    RunKeepsRangeSettled(c, p, es);
  }

  predicate AlarmJustified(p: Point) {
    p.alarmed ==> p.alarmRange.Some? && p.alarmRange.value != 0
  }

  /** An alarmed point is out of its limits throughout, acknowledgements in between included. */
  lemma {:induction false} AlarmedMeansOutOfRange(c: Config, p: Point, es: seq<Event>)
    requires LimitsEnabled(c) && AlarmJustified(p)
    ensures AlarmJustified(Run(c, p, es))
    decreases |es|
  {
    if es != [] {
      assert AlarmJustified(Step(c, p, es[0]));
      AlarmedMeansOutOfRange(c, Step(c, p, es[0]), es[1..]);
    }
  }

  /** A beep is queued exactly when the stored alarm flag rises on a point of beeping priority. */
  lemma {:induction false} BeepsOnRisingAlarm(c: Config, p: Point, e: Event)
    requires LimitsEnabled(c) && RangeSettled(c, p) && e.Change?
    ensures (exists b :: BeepUpdate(b) in RtOpsOf(c, p, e.u, e.now))
            <==> !p.alarmed && Step(c, p, e).alarmed && c.priority <= LOWEST_PRIORITY_THAT_BEEPS
  {
    var ops := RtOpsOf(c, p, e.u, e.now);
    if Persists(c, p, e.u, Convert(c, e.u.valueAtSource)) && Beeps(c, p, Convert(c, e.u.valueAtSource)) {
      assert ops[0] == BeepUpdate(c.priority == 0);
    }
  }

  /**
   The realtime table lags behind the database: on a settled point, the row of an update has the value and
   validity that are stored, and the stored range exactly when the update reports no change of range.
   */
  lemma {:induction false} RowShowsRangeIff(c: Config, p: Point, e: Event)
    requires LimitsEnabled(c) && RangeSettled(c, p) && e.Change?
    ensures forall row :: row in SqlRowsOf(c, p, e.u, e.now) ==>
              var q := Step(c, p, e);
              && row.value == q.value && row.invalid == q.invalid && row.timeTag == q.timeTag
              && row.alarmed == q.alarmed
              && (row.alarmRange == q.alarmRange <==> !EmitsLimitEvent(c, p, e))
  {
  }

  /**
   The row lags in these fields only: it is the stored document with the range, alarm time and sample of before and,
   while alarms are disabled, the alarm flag of before.
   */
  lemma {:induction false} RowBesideDocument(c: Config, p: Point, e: Event, row: Point)
    requires e.Change? && row in SqlRowsOf(c, p, e.u, e.now)
    ensures var q := Step(c, p, e);
            row == q.(alarmRange := p.alarmRange, timeTagAlarm := p.timeTagAlarm,
                      historianLastValue := p.historianLastValue,
                      alarmed := if c.alarmDisabled then p.alarmed else q.alarmed)
  {
  }

  // ---------------------------------------------------------------- what one update means

  predicate NoBand(c: Config) {
    c.zeroDeadband.None? || c.zeroDeadband.value == 0.0
  }

  /** Outside a zero dead band conversion is the line through kconv2 with slope kconv1. */
  lemma {:induction false} ConversionIsLinear(c: Config, r: real, s: real)
    requires NoBand(c)
    ensures Convert(c, 0.0) == c.kconv2
    ensures Convert(c, r) - Convert(c, s) == (r - s) * c.kconv1
  {
    Distributes(r, s, c.kconv1);
    Distributes(0.0, 0.0, c.kconv1);
  }

  lemma {:induction false} Distributes(r: real, s: real, k: real)
    ensures r * k - s * k == (r - s) * k
  {
  }

  /**
   A band maps the values strictly inside it to zero, leaves the others alone, and so keeps every value other
   than zero out of it.
   */
  lemma {:induction false} BandAroundZero(c: Config, raw: real, band: real)
    requires c.zeroDeadband == Some(band) && band != 0.0
    ensures var line := Convert(c.(zeroDeadband := None), raw);
            && (-band < line < band ==> Convert(c, raw) == 0.0)
            && (!(-band < line < band) ==> Convert(c, raw) == line)
    ensures Convert(c, raw) == 0.0 || Convert(c, raw) >= band || Convert(c, raw) <= -band
  {
  }

  /** Everything that is queued for a change carries this value. */
  lemma {:induction false} QueuedValue(c: Config, p: Point, u: Update, now: int)
    ensures var v, line := Convert(c, u.valueAtSource), u.valueAtSource * c.kconv1 + c.kconv2;
            && v == (if c.zeroDeadband.Some? && -c.zeroDeadband.value < line < c.zeroDeadband.value then 0.0 else line)
            && (forall x :: x in HistOf(c, p, u) ==> x == v)
            && (forall e :: e in SoeOf(c, p, u) ==> e.value == v)
            && (forall o :: o in RtOpsOf(c, p, u, now) && o.PointUpdate? ==> o.point.value == v)
            && (forall row :: row in SqlRowsOf(c, p, u, now) ==> row.value == v)
  {
  }

  /** The range of a value: strictly beyond a limit and its hysteresis, strictly within both, or else the stored one. */
  lemma {:induction false} RangeIff(c: Config, stored: Option<int>, v: real)
    requires LimitsEnabled(c)
    ensures var r, hi, lo, h := NextRange(c, stored, v), c.hiLimit.value, c.loLimit.value, c.hysteresis;
            && (v > hi + h ==> r == 1)
            && (v <= hi + h && v < lo - h ==> r == -1)
            && (v <= hi + h && v >= lo - h && lo + h < v < hi - h ==> r == 0)
            && (v <= hi + h && v >= lo - h && !(lo + h < v < hi - h)
                ==> r == (if stored.Some? then stored.value else 0))
  {
  }

  /** Limits count when both are given and alarms are not disabled. */
  lemma {:induction false} LimitsCountIff(c: Config)
    ensures LimitsEnabled(c) <==> c.hiLimit.Some? && c.loLimit.Some? && !c.alarmDisabled
  {
  }

  /** The alarm is raised by a change to a range other than zero, cleared well inside the limits, and kept otherwise. */
  lemma {:induction false} AlarmIff(c: Config, p: Point, v: real)
    requires LimitsEnabled(c) && c.hysteresis >= 0.0
    ensures var r, hi, lo, h := NextRange(c, p.alarmRange, v), c.hiLimit.value, c.loLimit.value, c.hysteresis;
            NextAlarmed(c, p, v) <==> (r != 0 && p.alarmRange != Some(r)) || (p.alarmed && !(lo + h < v < hi - h))
  {
  }

  /** A change is dropped exactly when it is backfill, or says nothing new in any of these ways. */
  lemma {:induction false} DroppedIff(c: Config, p: Point, u: Update, now: int)
    ensures RtOpsOf(c, p, u, now) == []
            <==> u.isHistorical
                 || (&& Convert(c, u.valueAtSource) == p.value && u.sourceTime == NoTime && p.timeTag.Some?
                     && !u.rangeCheck
                     && p.invalid == (u.invalidAtSource || u.notTopicalAtSource || u.overflowAtSource
                                      || u.transientAtSource))
    ensures SqlRowsOf(c, p, u, now) == [] <==> RtOpsOf(c, p, u, now) == []
    ensures HistOf(c, p, u) != [] ==> RtOpsOf(c, p, u, now) != []
  {
  }

  /**
   A kept change goes to the historian unless its period is negative, it is excluded, or it is within the dead
   band.
   */
  lemma {:induction false} SampledIff(c: Config, p: Point, u: Update, now: int)
    requires RtOpsOf(c, p, u, now) != []
    ensures HistOf(c, p, u) != []
            <==> || c.historianPeriod.None?
                 || (&& c.historianPeriod.value >= 0.0 && !u.isNotForHistorical
                     && (|| c.historianDeadBand.None? || c.historianDeadBand.value <= 0.0 || p.historianLastValue.None?
                         || Convert(c, u.valueAtSource) - p.historianLastValue.value >= c.historianDeadBand.value
                         || p.historianLastValue.value - Convert(c, u.valueAtSource) >= c.historianDeadBand.value))
  {
  }

  /** Events of value are those of event points: a valid change, or any change with a source time from 1900 on. */
  lemma {:induction false} ValueEventIff(c: Config, p: Point, u: Update)
    ensures (exists v :: ValueEvent(v) in SoeOf(c, p, u))
            <==> && !c.alarmDisabled && c.isEvent
                 && (|| u.sourceTime == From1900
                     || (&& Convert(c, u.valueAtSource) != p.value
                         && !u.invalidAtSource && !u.notTopicalAtSource && !u.overflowAtSource && !u.transientAtSource))
  {
    var soe := SoeOf(c, p, u);
    if ValueEventDue(c, p, u, Convert(c, u.valueAtSource)) {
      assert soe[|soe| - 1] == ValueEvent(Convert(c, u.valueAtSource));
    }
  }

  /** A limit event carries the new range, and is acknowledged in advance when it raises no alarm. */
  lemma {:induction false} LimitEventMeans(c: Config, p: Point, u: Update, e: SoeEntry)
    requires e in SoeOf(c, p, u) && e.LimitEvent?
    ensures LimitsEnabled(c) && e.range == NextRange(c, p.alarmRange, Convert(c, u.valueAtSource))
            && p.alarmRange != Some(e.range)
    ensures e.range != 0 ==> !e.ack
  {
  }

  /** Beeps are for priorities zero and one, and important for zero. */
  lemma {:induction false} BeepMeans(c: Config, p: Point, u: Update, now: int, important: bool)
    requires BeepUpdate(important) in RtOpsOf(c, p, u, now)
    ensures c.priority <= 1 && (important <==> c.priority == 0) && !p.alarmed && !c.alarmDisabled
  {
  }

  /** The stored document, field by field. */
  lemma {:induction false} StoredDocument(c: Config, p: Point, e: Event)
    requires e.Change? && RtOpsOf(c, p, e.u, e.now) != []
    ensures var q := Step(c, p, e);
            && PointUpdate(q) in RtOpsOf(c, p, e.u, e.now)
            && q.timeTag == Some(e.now) && q.updatesCnt == p.updatesCnt + 1
            && q.overflow == e.u.overflowAtSource && q.transient == e.u.transientAtSource
            && q.invalid == (e.u.invalidAtSource || e.u.notTopicalAtSource || e.u.overflowAtSource
                             || e.u.transientAtSource)
            && q.timeTagAlarm == (if q.alarmed && !p.alarmed then Some(e.now) else p.timeTagAlarm)
            && q.historianLastValue == (if HistOf(c, p, e.u) != [] then Some(q.value) else p.historianLastValue)
            && (!LimitsEnabled(c) ==> q.alarmRange == Some(0)) && (c.alarmDisabled ==> !q.alarmed)
  {
    var ops := RtOpsOf(c, p, e.u, e.now);
    assert ops[|ops| - 1] == PointUpdate(Step(c, p, e));
  }

  /**
   An acknowledgement clears the alarm flag and nothing else; the watch over silent points marks them invalid
   and nothing else.
   */
  lemma {:induction false} OtherEvents(c: Config, p: Point)
    ensures Step(c, p, Acknowledge) == p.(alarmed := false) && Step(c, p, Invalidate) == p.(invalid := true)
  {
  }

  // ---------------------------------------------------------------- hysteresis and dead band against the signal

  /** The converted values of a sequence of source updates. */
  function Signal(c: Config, es: seq<Event>): seq<real>
    requires forall e :: e in es ==> e.Change?
  {
    seq(|es|, i requires 0 <= i < |es| => assert es[i] in es; Convert(c, es[i].u.valueAtSource))
  }

  function Variation(vs: seq<real>): real
    decreases |vs|
  {
    if |vs| < 2 then 0.0 else Abs(vs[1] - vs[0]) + Variation(vs[1..])
  }

  lemma {:induction false} VariationSkips(x: real, vs: seq<real>)
    requires vs != []
    ensures Variation([x] + vs) == Abs(vs[0] - x) + Variation(vs)
    ensures Variation([x] + vs[1..]) <= Variation([x] + vs)
  {
    assert ([x] + vs)[1..] == vs;
    if |vs| > 1 {
      assert ([x] + vs[1..])[1..] == vs[1..];
    }
  }

  /** Every marked value is at least `d` away from the marked one before it, starting from `x`. */
  predicate Spread(x: real, vs: seq<real>, marks: seq<bool>, d: real)
    requires |marks| == |vs|
    decreases |vs|
  {
    vs == [] || (if marks[0] then Abs(vs[0] - x) >= d && Spread(vs[0], vs[1..], marks[1..], d)
                 else Spread(x, vs[1..], marks[1..], d))
  }

  function Cost(n: nat, d: real): real {
    n as real * d
  }

  lemma {:induction false} OneMore(n: nat, d: real)
    ensures Cost(n + 1, d) == Cost(n, d) + d
  {
  }

  lemma {:induction false} SpreadCostsVariation(x: real, vs: seq<real>, marks: seq<bool>, d: real)
    requires |marks| == |vs| && Spread(x, vs, marks, d)
    ensures Cost(Count(marks), d) <= Variation([x] + vs)
    decreases |vs|
  {
    if vs == [] {
      assert Cost(0, d) == 0.0;
    } else {
      VariationSkips(x, vs);
      SpreadCostsVariation(if marks[0] then vs[0] else x, vs[1..], marks[1..], d);
      assert vs == [vs[0]] + vs[1..];
      OneMore(Count(marks[1..]), d);
    }
  }

  /** The marked values are spread from the first one on. */
  predicate SpreadFromFirst(vs: seq<real>, marks: seq<bool>, d: real)
    requires |marks| == |vs|
    decreases |vs|
  {
    vs == [] || (if marks[0] then Spread(vs[0], vs[1..], marks[1..], d) else SpreadFromFirst(vs[1..], marks[1..], d))
  }

  lemma {:induction false} SpreadFromFirstCostsVariation(vs: seq<real>, marks: seq<bool>, d: real)
    requires |marks| == |vs| && SpreadFromFirst(vs, marks, d) && Count(marks) > 0
    ensures Cost(Count(marks) - 1, d) <= Variation(vs)
    decreases |vs|
  {
    assert vs == [vs[0]] + vs[1..];
    if marks[0] {
      SpreadCostsVariation(vs[0], vs[1..], marks[1..], d);
    } else {
      SpreadFromFirstCostsVariation(vs[1..], marks[1..], d);
      VariationSkips(vs[0], vs[1..]);
    }
  }

  predicate Live(c: Config, es: seq<Event>) {
    forall e :: e in es ==> e.Change? && !e.u.isHistorical
  }

  /** The value at which the present range was entered. */
  predicate EnteredAt(c: Config, r: int, x: real)
    requires LimitsEnabled(c)
  {
    (r == 1 && Above(c, x)) || (r == -1 && Below(c, x)) || (r == 0 && Inside(c, x))
  }

  /**
   One live update from a settled range: a change moves the value across the whole band and enters the new
   range there.
   */
  lemma {:induction false} ChangeCrossesBand(c: Config, p: Point, e: Event, x: real)
    requires LimitsEnabled(c) && c.loLimit.value <= c.hiLimit.value && c.hysteresis >= 0.0
    requires RangeSettled(c, p) && p.alarmRange.Some? && e.Change? && !e.u.isHistorical
    ensures var q, v := Step(c, p, e), Convert(c, e.u.valueAtSource);
            && RangeSettled(c, q) && q.alarmRange.Some?
            && (q.alarmRange != p.alarmRange ==> EnteredAt(c, q.alarmRange.value, v))
            && (q.alarmRange != p.alarmRange && EnteredAt(c, p.alarmRange.value, x) ==> Abs(v - x) > 2.0 * c.hysteresis)
  {
    StepKeepsRangeSettled(c, p, e);
  }

  lemma {:induction false} RangeMarksSpread(c: Config, p: Point, es: seq<Event>, x: real)
    requires LimitsEnabled(c) && c.loLimit.value <= c.hiLimit.value && c.hysteresis >= 0.0
    requires RangeSettled(c, p) && p.alarmRange.Some? && EnteredAt(c, p.alarmRange.value, x)
    requires Live(c, es)
    ensures Spread(x, Signal(c, es), RangeMarks(c, p, es), 2.0 * c.hysteresis)
    decreases |es|
  {
    if es != [] {
      var q, rest, vs := Step(c, p, es[0]), es[1..], Signal(c, es);
      assert es[0] in es && forall e :: e in rest ==> e in es;
      assert vs[1..] == Signal(c, rest) && RangeMarks(c, p, es)[1..] == RangeMarks(c, q, rest);
      ChangeCrossesBand(c, p, es[0], x);
      RangeMarksSpread(c, q, rest, if q.alarmRange != p.alarmRange then vs[0] else x);
    }
  }

  /** Two consecutive changes of the alarm range are more than twice the hysteresis apart in value. */
  lemma {:induction false} ChangesAreFarApart(c: Config, p: Point, first: Event, between: seq<Event>, second: Event)
    requires LimitsEnabled(c) && c.loLimit.value <= c.hiLimit.value
    requires RangeSettled(c, p) && p.alarmRange.Some? && Live(c, [first] + between + [second])
    requires first.Change? && second.Change?
    requires var q := Step(c, p, first);
             && q.alarmRange != p.alarmRange && RangeChanges(c, q, between) == 0
             && Step(c, Run(c, q, between), second).alarmRange != Run(c, q, between).alarmRange
    ensures Abs(Convert(c, second.u.valueAtSource) - Convert(c, first.u.valueAtSource)) > 2.0 * c.hysteresis
  {
    assert first in [first] + between + [second] && second in [first] + between + [second];
    assert forall e :: e in between ==> e in [first] + between + [second];
    var q := Step(c, p, first);
    StepKeepsRangeSettled(c, p, first);
    NoChangeKeepsRange(c, q, between);
    RunKeepsRangeSettled(c, q, between);
  }

  lemma {:induction false} NoChangeKeepsRange(c: Config, p: Point, es: seq<Event>)
    requires RangeChanges(c, p, es) == 0
    ensures Run(c, p, es).alarmRange == p.alarmRange
    decreases |es|
  {
    if es != [] {
      assert RangeMarks(c, p, es)[1..] == RangeMarks(c, Step(c, p, es[0]), es[1..]);
      NoChangeKeepsRange(c, Step(c, p, es[0]), es[1..]);
    }
  }

  lemma {:induction false} RangeMarksSpreadFromFirst(c: Config, p: Point, es: seq<Event>)
    requires LimitsEnabled(c) && c.loLimit.value <= c.hiLimit.value && c.hysteresis >= 0.0
    requires RangeSettled(c, p) && p.alarmRange.Some? && Live(c, es)
    ensures SpreadFromFirst(Signal(c, es), RangeMarks(c, p, es), 2.0 * c.hysteresis)
    decreases |es|
  {
    if es != [] {
      var q, rest, vs := Step(c, p, es[0]), es[1..], Signal(c, es);
      assert es[0] in es && forall e :: e in rest ==> e in es;
      assert vs[1..] == Signal(c, rest) && RangeMarks(c, p, es)[1..] == RangeMarks(c, q, rest);
      ChangeCrossesBand(c, p, es[0], vs[0]);
      if q.alarmRange != p.alarmRange {
        RangeMarksSpread(c, q, rest, vs[0]);
      } else {
        RangeMarksSpreadFromFirst(c, q, rest);
      }
    }
  }

  /**
   Chattering is bounded: `k` changes of the range cost a total variation of at least (k - 1) times twice the
   hysteresis.
   */
  lemma {:induction false} RangeChangesCostVariation(c: Config, p: Point, es: seq<Event>)
    requires LimitsEnabled(c) && c.loLimit.value <= c.hiLimit.value && c.hysteresis >= 0.0
    requires RangeSettled(c, p) && p.alarmRange.Some? && Live(c, es)
    ensures RangeChanges(c, p, es) > 0
            ==> Cost(RangeChanges(c, p, es) - 1, 2.0 * c.hysteresis) <= Variation(Signal(c, es))
  {
    RangeMarksSpreadFromFirst(c, p, es);
    if RangeChanges(c, p, es) > 0 {
      SpreadFromFirstCostsVariation(Signal(c, es), RangeMarks(c, p, es), 2.0 * c.hysteresis);
    }
  }

  predicate DeadBandOn(c: Config) {
    && c.historianDeadBand.Some? && c.historianDeadBand.value > 0.0
    && c.historianPeriod.Some? && c.historianPeriod.value >= 0.0
  }

  predicate Recorded(c: Config, es: seq<Event>) {
    forall e :: e in es && e.Change? ==> !e.u.isNotForHistorical
  }

  /** The last historised value represents the present one to within the dead band. */
  predicate Represented(c: Config, p: Point)
    requires DeadBandOn(c)
  {
    p.timeTag.Some?
    ==> p.historianLastValue.Some? && Abs(p.value - p.historianLastValue.value) < c.historianDeadBand.value
  }

  lemma {:induction false} StepKeepsRepresented(c: Config, p: Point, e: Event)
    requires DeadBandOn(c) && Represented(c, p) && (e.Change? ==> !e.u.isNotForHistorical)
    ensures Represented(c, Step(c, p, e))
    ensures e.Change? && HistOf(c, p, e.u) != [] && p.historianLastValue.Some?
            ==> Abs(HistOf(c, p, e.u)[0] - p.historianLastValue.value) >= c.historianDeadBand.value
    ensures Step(c, p, e).historianLastValue
            == if e.Change? && HistOf(c, p, e.u) != [] then Some(HistOf(c, p, e.u)[0]) else p.historianLastValue
  {
  }

  /** After every run the present value is strictly within the dead band of the last historised one. */
  lemma {:induction false} HistorianTracksValue(c: Config, p: Point, es: seq<Event>)
    requires DeadBandOn(c) && Represented(c, p) && Recorded(c, es)
    ensures Represented(c, Run(c, p, es))
    decreases |es|
  {
    if es != [] {
      assert es[0] in es && forall e :: e in es[1..] ==> e in es;
      StepKeepsRepresented(c, p, es[0]);
      HistorianTracksValue(c, Step(c, p, es[0]), es[1..]);
    }
  }

  /** Which events of a run put their value into the historian. */
  function SampleMarks(c: Config, p: Point, es: seq<Event>): (marks: seq<bool>)
    ensures |marks| == |es|
    decreases |es|
  {
    if es == [] then [] else [es[0].Change? && HistOf(c, p, es[0].u) != []] + SampleMarks(c, Step(c, p, es[0]), es[1..])
  }

  lemma {:induction false} SampleMarksSpread(c: Config, p: Point, es: seq<Event>)
    requires DeadBandOn(c) && Represented(c, p) && Recorded(c, es) && Live(c, es) && p.historianLastValue.Some?
    ensures Spread(p.historianLastValue.value, Signal(c, es), SampleMarks(c, p, es), c.historianDeadBand.value)
    decreases |es|
  {
    if es != [] {
      var q, rest, vs := Step(c, p, es[0]), es[1..], Signal(c, es);
      assert es[0] in es && forall e :: e in rest ==> e in es;
      assert vs[1..] == Signal(c, rest) && SampleMarks(c, p, es)[1..] == SampleMarks(c, q, rest);
      StepKeepsRepresented(c, p, es[0]);
      SampleMarksSpread(c, q, rest);
    }
  }

  /** A fresh point takes its first live value into the historian. */
  lemma {:induction false} FirstValueIsSampled(c: Config, p: Point, es: seq<Event>)
    requires DeadBandOn(c) && p.timeTag.None? && p.historianLastValue.None? && Recorded(c, es) && Live(c, es)
             && es != []
    ensures SampleMarks(c, p, es)[0] && Count(SampleMarks(c, p, es)) >= 1
  {
    assert es[0] in es;
  }

  lemma {:induction false} SampleMarksSpreadFromFirst(c: Config, p: Point, es: seq<Event>)
    requires DeadBandOn(c) && Represented(c, p) && Recorded(c, es) && Live(c, es)
    ensures SpreadFromFirst(Signal(c, es), SampleMarks(c, p, es), c.historianDeadBand.value)
    decreases |es|
  {
    if es != [] {
      var q, rest, vs := Step(c, p, es[0]), es[1..], Signal(c, es);
      assert es[0] in es && forall e :: e in rest ==> e in es;
      assert vs[1..] == Signal(c, rest) && SampleMarks(c, p, es)[1..] == SampleMarks(c, q, rest);
      StepKeepsRepresented(c, p, es[0]);
      if SampleMarks(c, p, es)[0] {
        SampleMarksSpread(c, q, rest);
      } else {
        SampleMarksSpreadFromFirst(c, q, rest);
      }
    }
  }

  /**
   The historian is economical: `n` samples cost a total variation of at least (n - 1) dead bands, and of
   `n` dead bands counted from the sample the run starts with, if there is one.
   */
  lemma {:induction false} SamplesCostVariation(c: Config, p: Point, es: seq<Event>)
    requires DeadBandOn(c) && Represented(c, p) && Recorded(c, es) && Live(c, es)
    ensures var n, d := Count(SampleMarks(c, p, es)), c.historianDeadBand.value;
            && (n > 0 ==> Cost(n - 1, d) <= Variation(Signal(c, es)))
            && (p.historianLastValue.Some? ==> Cost(n, d) <= Variation([p.historianLastValue.value] + Signal(c, es)))
  {
    var d := c.historianDeadBand.value;
    SampleMarksSpreadFromFirst(c, p, es);
    if Count(SampleMarks(c, p, es)) > 0 {
      SpreadFromFirstCostsVariation(Signal(c, es), SampleMarks(c, p, es), d);
    }
    if p.historianLastValue.Some? {
      SampleMarksSpread(c, p, es);
      SpreadCostsVariation(p.historianLastValue.value, Signal(c, es), SampleMarks(c, p, es), d);
    }
  }
}
