/**
 I104M datagrams: the object decoder i104mParseObj (src/i104m/i104m.go:323-472) and the
 sequence and single frames read in main (src/i104m/i104m.go:831-958).
 Every packet lies in a buffer of 2048 bytes; an index outside it is a Go panic.
 */
module I104mFrames {
  import opened Options

  type Byte = x: int | 0 <= x < 256

  const BUFFER_SIZE: nat := 2048
  const SEQUENCE_SIGNATURE: int := 0x64646464
  const SINGLE_SIGNATURE: int := 0x53535353

  /** The fields handed to time.Date. */
  datatype Time = Time(year: int, month: int, day: int, hour: int, minute: int, second: int, milli: int)

  /** The four bytes of a float are kept as they are. */
  datatype Value = Number(n: int) | Float32(b0: Byte, b1: Byte, b2: Byte, b3: Byte)

  datatype Point = Point(value: Value, invalid: bool, notTopical: bool, substituted: bool, blocked: bool,
                         overflow: bool, transient: bool, time: Option<Time>, timeOk: bool)

  datatype Parsed = Panic | Rejected | Read(point: Point)

  /** One update operation of the bulk write. */
  datatype Update = Update(connection: int, objAddr: int, asdu: int, cause: int, point: Point)

  /** What a packet leads to. An unsupported type ends the process. */
  datatype Received = Crashed | Exited | Ignored | Write(opers: seq<Update>)

  // ---------------------------------------------------------------- numbers in bytes

  predicate Mask(b: Byte, m: int)
    requires m > 0
  {
    b / m % 2 == 1
  }

  function U16(lo: int, hi: int): int {
    lo + 0x100 * hi
  }

  function Int16(lo: int, hi: int): int {
    var w := U16(lo, hi);
    if w >= 0x8000 then w - 0x1_0000 else w
  }

  function U32(b: seq<Byte>): int
    requires |b| >= 4
  {
    U16(b[0], b[1]) + 0x1_0000 * U16(b[2], b[3])
  }

  predicate IsU32(w: int) {
    0 <= w < 0x1_0000_0000
  }

  function LE16(w: int): (b: seq<Byte>)
    requires 0 <= w < 0x1_0000
    ensures |b| == 2 && U16(b[0], b[1]) == w
  {
    [w % 0x100, w / 0x100]
  }

  function LE32(w: int): (b: seq<Byte>)
    requires IsU32(w)
    ensures |b| == 4 && U32(b) == w
  {
    LE16(w % 0x1_0000) + LE16(w / 0x1_0000)
  }

  // ---------------------------------------------------------------- what the decoder computes

  /** Normalised and scaled values. */
  predicate Measured(asdu: int) {
    asdu == 9 || asdu == 11 || asdu == 34 || asdu == 35
  }

  predicate StepPosition(asdu: int) {
    asdu == 5 || asdu == 32
  }

  predicate ShortFloat(asdu: int) {
    asdu == 13 || asdu == 36
  }

  predicate Untimed(asdu: int) {
    asdu == 1 || asdu == 3
  }

  predicate Timed(asdu: int) {
    asdu == 2 || asdu == 4 || asdu == 30 || asdu == 31
  }

  predicate IsDouble(asdu: int) {
    asdu == 3 || asdu == 4 || asdu == 31
  }

  /** Bytes the decoder indexes in an object, and none for the types it does not decode. */
  function Need(asdu: int): nat {
    if Measured(asdu) then 3
    else if StepPosition(asdu) then 2
    else if ShortFloat(asdu) then 5
    else if Untimed(asdu) then 1
    else if Timed(asdu) then 8
    else 0
  }

  function WithFlags(value: Value, flags: Byte, overflow: bool, transient: bool): Point {
    Point(value, Mask(flags, 0x80), Mask(flags, 0x40), Mask(flags, 0x20), Mask(flags, 0x10), overflow, transient, None,
          false)
  }

  function Digital(asdu: int, flags: Byte): Point {
    if IsDouble(asdu)
    then WithFlags(Number(flags / 2 % 2), flags, false, flags % 4 == 0 || flags % 4 == 3)
    else WithFlags(Number(flags % 2), flags, false, false)
  }

  function TimeOf(b: seq<Byte>): Time
    requires |b| >= 8
  {
    var ms := U16(b[1], b[2]);
    Time(2000 + (b[7] as int), b[6], b[5], b[4], b[3] % 0x40, ms / 1000, ms % 1000)
  }

  /** The decoder before it reads the time. */
  function ParseValue(asdu: int, b: seq<Byte>): Parsed {
    var need := if Timed(asdu) then 1 else Need(asdu);
    if need == 0 then Rejected
    else if |b| < need then Panic
    else if Measured(asdu) then Read(WithFlags(Number(Int16(b[0], b[1])), b[2], false, false))
    else if StepPosition(asdu) then Read(WithFlags(Number(b[0] % 0x80), b[1], false, Mask(b[0], 0x80)))
    else if ShortFloat(asdu) then Read(WithFlags(Float32(b[0], b[1], b[2], b[3]), b[4], Mask(b[4], 0x01), false))
    else Read(Digital(asdu, b[0]))
  }

  function Parse(asdu: int, b: seq<Byte>): Parsed {
    var parsed := ParseValue(asdu, b);
    if !parsed.Read? || !Timed(asdu) then parsed
    else if |b| < Need(asdu) then Panic
    else Read(parsed.point.(time := Some(TimeOf(b)), timeOk := !Mask(b[3], 0x80)))
  }

  /**
   The size of a slot: four address bytes and the information the standard gives the type; nothing for an
   unsupported type.
   */
  function SlotSize(asdu: int): nat {
    if Untimed(asdu) then 5
    else if asdu == 2 || asdu == 4 then 8
    else if asdu == 30 || asdu == 31 then 12
    else if asdu == 5 then 6
    else if asdu == 32 then 13
    else if asdu == 9 || asdu == 11 then 7
    else if asdu == 34 || asdu == 35 then 14
    else if asdu == 13 || asdu == 15 then 9
    else if asdu == 36 then 16
    else 0
  }

  function Slot(asdu: int, i: nat): nat {
    28 + i * SlotSize(asdu)
  }

  /** What is read from one slot. */
  function ParseSlot(buf: seq<Byte>, asdu: int, i: nat): Parsed {
    if Slot(asdu, i) + 4 > |buf| then Panic else Parse(asdu, buf[Slot(asdu, i) + 4..])
  }

  function SlotAddress(buf: seq<Byte>, asdu: int, i: nat): int
    requires Slot(asdu, i) + 4 <= |buf|
  {
    U32(buf[Slot(asdu, i)..])
  }

  /** The operations of the first `n` slots, or nothing after a panic. */
  function Slots(buf: seq<Byte>, asdu: int, cause: int, connection: int, n: nat): Option<seq<Update>>
    decreases n
  {
    if n == 0 then Some([])
    else
      var before, parsed := Slots(buf, asdu, cause, connection, n - 1), ParseSlot(buf, asdu, n - 1);
      if before.None? || parsed.Panic? then None
      else if parsed.Rejected? then before
      else Some(before.value + [Update(connection, SlotAddress(buf, asdu, n - 1), asdu, cause, parsed.point)])
  }

  function Word(buf: seq<Byte>, offset: nat): int
    requires offset + 4 <= |buf|
  {
    U32(buf[offset..])
  }

  function Packet(buf: seq<Byte>, connection: int): Received
    requires |buf| == BUFFER_SIZE
  {
    if Word(buf, 0) == SEQUENCE_SIGNATURE then
      var asdu := Word(buf, 8);
      if SlotSize(asdu) == 0 then Exited
      else
        var n := Word(buf, 4);
        var opers := Slots(buf, asdu, Word(buf, 20), connection, n);
        if opers.None? then Crashed else if opers.value == [] then Ignored else Write(opers.value)
    else if Word(buf, 0) == SINGLE_SIGNATURE then
      var parsed := Parse(Word(buf, 8), buf[28..]);
      if !parsed.Read? then Ignored
      else Write([Update(connection, Word(buf, 4), Word(buf, 8), Word(buf, 20), parsed.point)])
    else Ignored
  }

  // ---------------------------------------------------------------- the program

  /** i104mParseObj on the slice of `buf` from `at`. */
  method I104mParseObj(buf: array<Byte>, at: nat, asdu: int) returns (r: Parsed)
    requires at <= buf.Length
    ensures r == Parse(asdu, buf[at..])
  {
    r := ReadValue(buf, at, asdu);
    if r.Read? && (asdu == 2 || asdu == 4 || asdu == 30 || asdu == 31) {
      if buf.Length - at <= 7 {
        return Panic;
      }
      var srcTimeQualityOk := !Mask(buf[at + 3], 0x80);
      var srcTime := SourceTime(buf, at);
      r := Read(r.point.(time := Some(srcTime), timeOk := srcTimeQualityOk));
    }
  }

  /** The switch over the types, which fills the value and the flags. */
  method ReadValue(buf: array<Byte>, at: nat, asdu: int) returns (r: Parsed)
    requires at <= buf.Length
    ensures r == ParseValue(asdu, buf[at..])
  {
    var flags: Byte := 0;
    var value := Number(0);
    var overflow, transient := false, false;
    var len := buf.Length - at;
    if asdu == 45 || asdu == 46 || asdu == 47 {
      return Rejected;
    } else if asdu == 9 || asdu == 11 || asdu == 34 || asdu == 35 {
      if len <= 2 {
        return Panic;
      }
      flags := buf[at + 2];
      value := Number(Int16(buf[at], buf[at + 1]));
    } else if asdu == 5 || asdu == 32 {
      if len <= 1 {
        return Panic;
      }
      flags := buf[at + 1];
      transient := Mask(buf[at], 0x80);
      value := Number(buf[at] % 0x80);
    } else if asdu == 13 || asdu == 36 {
      if len <= 4 {
        return Panic;
      }
      flags := buf[at + 4];
      overflow := Mask(flags, 0x01);
      value := Float32(buf[at], buf[at + 1], buf[at + 2], buf[at + 3]);
    } else if asdu == 1 || asdu == 2 || asdu == 3 || asdu == 4 || asdu == 30 || asdu == 31 {
      if len <= 0 {
        return Panic;
      }
      flags := buf[at];
      value, transient := DigitalValue(flags, asdu == 3 || asdu == 4 || asdu == 31);
    } else {
      return Rejected;
    }
    r := Read(WithFlags(value, flags, overflow, transient));
  }

  method DigitalValue(flags: Byte, double: bool) returns (value: Value, transient: bool)
    ensures value == Number(if double then flags / 2 % 2 else flags % 2)
    ensures transient == (double && (flags % 4 == 0 || flags % 4 == 3))
  {
    transient := false;
    if double {
      value := if Mask(flags, 0x02) then Number(1) else Number(0);
      if flags % 4 == 0 || flags % 4 == 3 {
        transient := true;
      }
    } else {
      value := if Mask(flags, 0x01) then Number(1) else Number(0);
    }
  }

  method SourceTime(buf: array<Byte>, at: nat) returns (t: Time)
    requires at + 8 <= buf.Length
    ensures t == TimeOf(buf[at..])
  {
    var srcTimeMSec := U16(buf[at + 1], buf[at + 2]);
    t := Time(2000 + (buf[at + 7] as int), buf[at + 6], buf[at + 5], buf[at + 4], buf[at + 3] % 0x40,
              srcTimeMSec / 1000, srcTimeMSec % 1000);
  }

  method Uint32(buf: array<Byte>, at: nat) returns (w: int)
    requires at + 4 <= buf.Length
    ensures w == U32(buf[at..]) && IsU32(w)
  {
    w := U16(buf[at], buf[at + 1]) + 0x1_0000 * U16(buf[at + 2], buf[at + 3]);
  }

  method SequenceFrame(buf: array<Byte>, asdu: int, cause: int, connection: int,
                       numpoints: nat) returns (opers: Option<seq<Update>>)
    requires buf.Length == BUFFER_SIZE && SlotSize(asdu) > 0
    ensures opers == Slots(buf[..], asdu, cause, connection, numpoints)
  {
    var list: seq<Update> := [];
    var i, offset := 0, 28;
    while i < numpoints
      invariant i <= numpoints && offset == Slot(asdu, i)
      invariant Slots(buf[..], asdu, cause, connection, i) == Some(list)
    {
      var parsed, objAddr := ReadSlot(buf, offset, asdu, i);
      SlotsNext(buf[..], asdu, cause, connection, i, list, parsed);
      if parsed.Panic? {
        PanicsForGood(buf[..], asdu, cause, connection, i + 1, numpoints);
        return None;
      }
      if parsed.Read? {
        list := list + [Update(connection, objAddr, asdu, cause, parsed.point)];
      }
      SlotStep(asdu, i);
      i, offset := i + 1, offset + SlotSize(asdu);
    }
    opers := Some(list);
  }

  lemma {:induction false} SlotsNext(buf: seq<Byte>, asdu: int, cause: int, connection: int, i: nat, list: seq<Update>,
                                     parsed: Parsed)
    requires Slots(buf, asdu, cause, connection, i) == Some(list) && parsed == ParseSlot(buf, asdu, i)
    ensures parsed.Panic? ==> Slots(buf, asdu, cause, connection, i + 1) == None
    ensures parsed.Rejected? ==> Slots(buf, asdu, cause, connection, i + 1) == Some(list)
    ensures parsed.Read? ==>
              && Slot(asdu, i) + 4 <= |buf|
              && Slots(buf, asdu, cause, connection, i + 1)
                 == Some(list + [Update(connection, SlotAddress(buf, asdu, i), asdu, cause, parsed.point)])
  {
  }

  method ReadSlot(buf: array<Byte>, offset: nat, asdu: int, i: nat) returns (parsed: Parsed, objAddr: int)
    requires offset == Slot(asdu, i)
    ensures parsed == ParseSlot(buf[..], asdu, i)
    ensures !parsed.Panic? ==> offset + 4 <= buf.Length && objAddr == SlotAddress(buf[..], asdu, i)
  {
    objAddr := 0;
    if offset + 4 > buf.Length {
      return Panic, objAddr;
    }
    objAddr := Uint32(buf, offset);
    parsed := I104mParseObj(buf, offset + 4, asdu);
    assert buf[..][offset..] == buf[offset..] && buf[..][offset + 4..] == buf[offset + 4..];
  }

  lemma {:induction false} SlotStep(asdu: int, i: nat)
    ensures Slot(asdu, i + 1) == Slot(asdu, i) + SlotSize(asdu)
  {
  }

  method ReceivePacket(buf: array<Byte>, connection: int) returns (r: Received)
    requires buf.Length == BUFFER_SIZE
    ensures r == Packet(buf[..], connection)
  {
    assert buf[..][0..] == buf[0..] && buf[..][4..] == buf[4..] && buf[..][8..] == buf[8..]
           && buf[..][20..] == buf[20..] && buf[..][28..] == buf[28..];
    var signature := Uint32(buf, 0);
    if signature == SEQUENCE_SIGNATURE {
      var numpoints := Uint32(buf, 4);
      var asdu := Uint32(buf, 8);
      var cause := Uint32(buf, 20);
      if SlotSize(asdu) == 0 {
        return Exited;
      }
      var opers := SequenceFrame(buf, asdu, cause, connection, numpoints);
      if opers.None? {
        return Crashed;
      }
      return if |opers.value| > 0 then Write(opers.value) else Ignored;
    } else if signature == SINGLE_SIGNATURE {
      var objAddr := Uint32(buf, 4);
      var asdu := Uint32(buf, 8);
      var cause := Uint32(buf, 20);
      var parsed := I104mParseObj(buf, 28, asdu);
      if parsed.Read? {
        return Write([Update(connection, objAddr, asdu, cause, parsed.point)]);
      }
    }
    return Ignored;
  }

  lemma {:induction false} PanicsForGood(buf: seq<Byte>, asdu: int, cause: int, connection: int, m: nat, n: nat)
    requires m <= n && Slots(buf, asdu, cause, connection, m).None?
    ensures Slots(buf, asdu, cause, connection, n).None?
    decreases n
  {
    if m < n {
      PanicsForGood(buf, asdu, cause, connection, m, n - 1);
      PanicStays(buf, asdu, cause, connection, n - 1);
    }
  }

  lemma {:induction false} PanicStays(buf: seq<Byte>, asdu: int, cause: int, connection: int, n: nat)
    requires Slots(buf, asdu, cause, connection, n).None?
    ensures Slots(buf, asdu, cause, connection, n + 1).None?
  {
  }

  // ---------------------------------------------------------------- when a packet crashes the driver

  lemma {:induction false} SlotsPanicIff(buf: seq<Byte>, asdu: int, cause: int, connection: int, n: nat)
    ensures Slots(buf, asdu, cause, connection, n).None? <==> n > 0 && Slot(asdu, n - 1) + 4 + Need(asdu) > |buf|
    decreases n
  {
    if n > 0 {
      SlotsPanicIff(buf, asdu, cause, connection, n - 1);
      if n > 1 {
        SlotStep(asdu, n - 2);
      }
    }
  }

  /** Only a sequence frame whose last object reaches past the buffer crashes the driver. */
  lemma {:induction false} CrashesIff(buf: seq<Byte>, connection: int)
    requires |buf| == BUFFER_SIZE
    ensures var asdu, n := Word(buf, 8), Word(buf, 4);
            Packet(buf, connection) == Crashed
            <==> Word(buf, 0) == SEQUENCE_SIGNATURE && SlotSize(asdu) > 0 && n > 0
                 && 32 + (n - 1) * SlotSize(asdu) + Need(asdu) > BUFFER_SIZE
  {
    var n := Word(buf, 4);
    if n > 0 {
      SlotsPanicIff(buf, Word(buf, 8), Word(buf, 20), connection, n);
    }
  }

  lemma {:induction false} LastObjectFits(asdu: int, n: nat)
    requires n > 0 && SlotSize(asdu) > 0 && Slot(asdu, n) <= BUFFER_SIZE
    ensures 32 + (n - 1) * SlotSize(asdu) + Need(asdu) <= BUFFER_SIZE
  {
    SlotStep(asdu, n - 1);
    if asdu == 2 || asdu == 4 {
      assert Slot(asdu, n) == 28 + n * 8;
    }
  }

  /** Frames whose slots all fit never crash, although types 2 and 4 read past their slots. */
  lemma {:induction false} WholeSlotsNeverCrash(buf: seq<Byte>, connection: int)
    requires |buf| == BUFFER_SIZE
    requires Slot(Word(buf, 8), Word(buf, 4)) <= BUFFER_SIZE
    ensures Packet(buf, connection) != Crashed
  {
    CrashesIff(buf, connection);
    var asdu, n := Word(buf, 8), Word(buf, 4);
    if n > 0 && SlotSize(asdu) > 0 {
      LastObjectFits(asdu, n);
    }
  }

  // ---------------------------------------------------------------- slots

  predicate SameSlot(b: seq<Byte>, c: seq<Byte>, asdu: int, i: nat) {
    |b| == |c| && Slot(asdu, i + 1) <= |b| && b[Slot(asdu, i)..Slot(asdu, i + 1)] == c[Slot(asdu, i)..Slot(asdu, i + 1)]
  }

  predicate SameReading(b: seq<Byte>, c: seq<Byte>, asdu: int, i: nat)
    requires SlotSize(asdu) > 0 && |b| == |c| && Slot(asdu, i + 1) <= |b|
  {
    SlotStep(asdu, i);
    SlotAddress(b, asdu, i) == SlotAddress(c, asdu, i) && ParseSlot(b, asdu, i) == ParseSlot(c, asdu, i)
  }

  /** What is read from a slot depends on that slot alone. */
  ghost predicate SlotIsolated(asdu: int)
    requires SlotSize(asdu) > 0
  {
    forall b: seq<Byte>, c: seq<Byte>, i: nat :: SameSlot(b, c, asdu, i) ==> SameReading(b, c, asdu, i)
  }

  lemma {:induction false} ParseLooksAtNeed(asdu: int, b: seq<Byte>, c: seq<Byte>)
    requires Need(asdu) <= |b| && Need(asdu) <= |c| && b[..Need(asdu)] == c[..Need(asdu)]
    ensures Parse(asdu, b) == Parse(asdu, c)
  {
    assert forall k :: 0 <= k < Need(asdu) ==> b[k] == b[..Need(asdu)][k] == c[k];
  }

  /** Every supported type stays within its own slot, except 2 and 4, which take the time from the next one. */
  lemma {:induction false} SlotIsolatedIff(asdu: int)
    requires SlotSize(asdu) > 0
    ensures SlotIsolated(asdu) <==> asdu != 2 && asdu != 4
  {
    if asdu == 2 || asdu == 4 {
      var b := seq<Byte>(40, _ => 0);
      var c := b[39 := 1];
      assert SameSlot(b, c, asdu, 0);
      assert TimeOf(b[32..]).year == 2000 && TimeOf(c[32..]).year == 2001;
      assert !SameReading(b, c, asdu, 0);
    } else {
      forall b: seq<Byte>, c: seq<Byte>, i: nat | SameSlot(b, c, asdu, i)
        ensures SameReading(b, c, asdu, i)
      {
        SlotReadsItself(b, c, asdu, i);
      }
    }
  }

  lemma {:induction false} SlotReadsItself(b: seq<Byte>, c: seq<Byte>, asdu: int, i: nat)
    requires SlotSize(asdu) > 0 && asdu != 2 && asdu != 4 && SameSlot(b, c, asdu, i)
    ensures SameReading(b, c, asdu, i)
  {
    SlotStep(asdu, i);
    var at, next := Slot(asdu, i), Slot(asdu, i + 1);
    forall k | at <= k < next
      ensures b[k] == c[k]
    {
      assert b[k] == b[at..next][k - at] && c[k] == c[at..next][k - at];
    }
    assert b[at + 4..][..Need(asdu)] == c[at + 4..][..Need(asdu)];
    ParseLooksAtNeed(asdu, b[at + 4..], c[at + 4..]);
  }

  // ---------------------------------------------------------------- writing and reading back

  predicate Fits(t: Time) {
    && 2000 <= t.year < 2256 && 0 <= t.month < 256 && 0 <= t.day < 256 && 0 <= t.hour < 256 && 0 <= t.minute < 0x40
    && 0 <= t.milli < 1000 && 0 <= t.second && t.second * 1000 + t.milli < 0x1_0000
  }

  /** The points a type can carry. */
  predicate Encodable(asdu: int, p: Point) {
    && Need(asdu) > 0
    && (if ShortFloat(asdu) then p.value.Float32? else p.value.Number? && !p.overflow)
    && (Measured(asdu) ==> -0x8000 <= p.value.n < 0x8000)
    && (StepPosition(asdu) ==> 0 <= p.value.n < 0x80)
    && (Untimed(asdu) || Timed(asdu) ==> p.value.n == 0 || p.value.n == 1)
    && (p.transient ==> StepPosition(asdu) || IsDouble(asdu))
    && (if Timed(asdu) then p.time.Some? && Fits(p.time.value) else p.time.None? && !p.timeOk)
  }

  function Bit(b: bool, m: Byte): Byte {
    if b then m else 0
  }

  function Quality(p: Point, low: int): Byte
    requires 0 <= low < 16
  {
    Bit(p.invalid, 0x80) as int + Bit(p.notTopical, 0x40) + Bit(p.substituted, 0x20) + Bit(p.blocked, 0x10) + low
  }

  /** The state bits of a digital point: a double point in transit has both bits equal. */
  function State(asdu: int, p: Point): (low: int)
    requires Encodable(asdu, p) && (Untimed(asdu) || Timed(asdu))
    ensures 0 <= low < 4
  {
    if !IsDouble(asdu) then p.value.n
    else if p.transient then 3 * p.value.n
    else 1 + p.value.n
  }

  /** The minute, and the invalid flag above it. */
  function MinuteByte(minute: int, iv: bool): (b: Byte)
    requires 0 <= minute < 0x40
    ensures b % 0x40 == minute && Mask(b, 0x80) == iv
  {
    minute + Bit(iv, 0x80)
  }

  function TimeBytes(t: Time, ok: bool): (b: seq<Byte>)
    requires Fits(t)
    ensures |b| == 7
  {
    var ms := t.second * 1000 + t.milli;
    LE16(ms) + [MinuteByte(t.minute, !ok), t.hour, t.day, t.month, t.year - 2000]
  }

  /** What the low bits of the quality byte hold. */
  function Low(asdu: int, p: Point): (low: int)
    requires Encodable(asdu, p)
    ensures 0 <= low < 4
  {
    if ShortFloat(asdu) then Bit(p.overflow, 1)
    else if Untimed(asdu) || Timed(asdu) then State(asdu, p)
    else 0
  }

  /** An object with the quality byte `f`. */
  function BodyWith(asdu: int, p: Point, f: Byte): (b: seq<Byte>)
    requires Encodable(asdu, p)
    ensures |b| == Need(asdu)
  {
    if Measured(asdu) then [p.value.n % 0x100, p.value.n % 0x1_0000 / 0x100, f]
    else if StepPosition(asdu) then [p.value.n + Bit(p.transient, 0x80), f]
    else if ShortFloat(asdu) then [p.value.b0, p.value.b1, p.value.b2, p.value.b3, f]
    else if Timed(asdu) then [f] + TimeBytes(p.time.value, p.timeOk)
    else [f]
  }

  function Body(asdu: int, p: Point): (b: seq<Byte>)
    requires Encodable(asdu, p)
    ensures |b| == Need(asdu)
  {
    BodyWith(asdu, p, Quality(p, Low(asdu, p)))
  }

  predicate FlagsOf(p: Point, low: int, f: Byte) {
    && Mask(f, 0x80) == p.invalid && Mask(f, 0x40) == p.notTopical && Mask(f, 0x20) == p.substituted
       && Mask(f, 0x10) == p.blocked
    && f % 16 == low
  }

  lemma {:induction false} QualityReadsBack(p: Point, low: int)
    requires 0 <= low < 16
    ensures FlagsOf(p, low, Quality(p, low))
  {
  }

  lemma {:induction false} TimeReadsBack(t: Time, ok: bool, f: Byte, rest: seq<Byte>)
    requires Fits(t)
    ensures var b := [f] + TimeBytes(t, ok) + rest; TimeOf(b) == t && Mask(b[3], 0x80) == !ok
  {
    var b := [f] + TimeBytes(t, ok) + rest;
    assert forall k :: 1 <= k < 8 ==> b[k] == TimeBytes(t, ok)[k - 1];
  }

  lemma {:induction false} LowBits(f: Byte, low: int)
    requires f % 16 == low && low < 4
    ensures f % 4 == low && f % 2 == low % 2 && f / 2 % 2 == low / 2
  {
  }

  lemma {:induction false} DigitalReadsBack(asdu: int, p: Point, f: Byte)
    requires Encodable(asdu, p) && (Untimed(asdu) || Timed(asdu)) && FlagsOf(p, State(asdu, p), f)
    ensures Digital(asdu, f) == p.(time := None, timeOk := false)
  {
    LowBits(f, State(asdu, p));
  }

  lemma {:induction false} TimedReadsBack(asdu: int, p: Point, f: Byte, rest: seq<Byte>)
    requires Encodable(asdu, p) && Timed(asdu) && FlagsOf(p, State(asdu, p), f)
    ensures Parse(asdu, [f] + TimeBytes(p.time.value, p.timeOk) + rest) == Read(p)
  {
    DigitalReadsBack(asdu, p, f);
    TimeReadsBack(p.time.value, p.timeOk, f, rest);
  }

  lemma {:induction false} Int16ReadsBack(n: int)
    requires -0x8000 <= n < 0x8000
    ensures Int16(n % 0x100, n % 0x1_0000 / 0x100) == n
  {
  }

  lemma {:induction false} MeasuredReadsBack(asdu: int, p: Point, f: Byte, rest: seq<Byte>)
    requires Encodable(asdu, p) && Measured(asdu) && FlagsOf(p, 0, f)
    ensures Parse(asdu, [p.value.n % 0x100, p.value.n % 0x1_0000 / 0x100, f] + rest) == Read(p)
  {
    Int16ReadsBack(p.value.n);
  }

  lemma {:induction false} StepReadsBack(asdu: int, p: Point, f: Byte, rest: seq<Byte>)
    requires Encodable(asdu, p) && StepPosition(asdu) && FlagsOf(p, 0, f)
    ensures Parse(asdu, [p.value.n + Bit(p.transient, 0x80), f] + rest) == Read(p)
  {
  }

  lemma {:induction false} FloatReadsBack(asdu: int, p: Point, f: Byte, rest: seq<Byte>)
    requires Encodable(asdu, p) && ShortFloat(asdu) && FlagsOf(p, Bit(p.overflow, 1), f)
    ensures Parse(asdu, [p.value.b0, p.value.b1, p.value.b2, p.value.b3, f] + rest) == Read(p)
  {
    assert f % 16 % 2 == f % 2;
  }

  lemma {:induction false} BodyReadsBack(asdu: int, p: Point, f: Byte, rest: seq<Byte>)
    requires Encodable(asdu, p) && FlagsOf(p, Low(asdu, p), f)
    ensures Parse(asdu, BodyWith(asdu, p, f) + rest) == Read(p)
  {
    if Measured(asdu) {
      MeasuredReadsBack(asdu, p, f, rest);
    } else if StepPosition(asdu) {
      StepReadsBack(asdu, p, f, rest);
    } else if ShortFloat(asdu) {
      FloatReadsBack(asdu, p, f, rest);
    } else if Timed(asdu) {
      TimedReadsBack(asdu, p, f, rest);
    } else {
      DigitalReadsBack(asdu, p, f);
    }
  }

  /** A written object is read back whole, whatever follows it. */
  lemma {:induction false} ObjectReadsBack(asdu: int, p: Point, rest: seq<Byte>)
    requires Encodable(asdu, p)
    ensures Parse(asdu, Body(asdu, p) + rest) == Read(p)
  {
    var low := Low(asdu, p);
    QualityReadsBack(p, low);
    BodyReadsBack(asdu, p, Quality(p, low), rest);
  }

  /** And nothing else is ever read: the decoder's results are exactly the points that can be written. */
  lemma {:induction false} ReadsOnlyEncodable(asdu: int, b: seq<Byte>)
    requires Parse(asdu, b).Read?
    ensures Encodable(asdu, Parse(asdu, b).point)
  {
  }

  /** Single points show one bit; double points show the upper of two, and are in transit while the two are equal. */
  lemma {:induction false} StatusBits(asdu: int, b: seq<Byte>)
    requires asdu in {1, 2, 3, 4, 30, 31} && Parse(asdu, b).Read?
    ensures var p, double := Parse(asdu, b).point, asdu in {3, 4, 31};
            && b != [] && p.value == Number(if double then b[0] / 2 % 2 else b[0] % 2)
            && (p.transient <==> double && b[0] / 2 % 2 == b[0] % 2)
  {
  }

  // ---------------------------------------------------------------- whole frames

  datatype Item = Item(addr: int, point: Point)

  predicate Writable(asdu: int, items: seq<Item>) {
    forall i :: 0 <= i < |items| ==> IsU32(items[i].addr) && Encodable(asdu, items[i].point)
  }

  predicate At(s: seq<Byte>, at: nat, piece: seq<Byte>) {
    at + |piece| <= |s| && s[at..at + |piece|] == piece
  }

  lemma {:induction false} AtInside(s: seq<Byte>, at: nat, piece: seq<Byte>, inner: nat, part: seq<Byte>)
    requires At(s, at, piece) && At(piece, inner, part)
    ensures At(s, at + inner, part)
  {
    forall k | 0 <= k < |part|
      ensures s[at + inner + k] == part[k]
    {
      assert s[at..at + |piece|][inner + k] == piece[inner + k] && piece[inner..inner + |part|][k] == part[k];
    }
  }

  lemma {:induction false} WordAt(s: seq<Byte>, at: nat, w: int)
    requires IsU32(w) && At(s, at, LE32(w))
    ensures Word(s, at) == w
  {
    assert forall k :: 0 <= k < 4 ==> s[at..][k] == s[at..at + 4][k];
  }

  predicate HoldsItem(buf: seq<Byte>, asdu: int, i: nat, item: Item) {
    && IsU32(item.addr) && Encodable(asdu, item.point)
    && At(buf, Slot(asdu, i), LE32(item.addr)) && At(buf, Slot(asdu, i) + 4, Body(asdu, item.point))
  }

  /**
   The buffer holds the items in its first slots. Spare bytes of a slot, and those after the last one, may be
   anything.
   */
  predicate Carries(buf: seq<Byte>, asdu: int, items: seq<Item>) {
    forall i :: 0 <= i < |items| ==> HoldsItem(buf, asdu, i, items[i])
  }

  function UpdateOf(asdu: int, cause: int, connection: int, item: Item): Update {
    Update(connection, item.addr, asdu, cause, item.point)
  }

  function Updates(asdu: int, cause: int, connection: int, items: seq<Item>): seq<Update> {
    seq(|items|, i requires 0 <= i < |items| => UpdateOf(asdu, cause, connection, items[i]))
  }

  predicate Yields(buf: seq<Byte>, i: nat, u: Update) {
    && Slot(u.asdu, i) + 4 <= |buf|
    && ParseSlot(buf, u.asdu, i) == Read(u.point) && SlotAddress(buf, u.asdu, i) == u.objAddr
  }

  predicate AllYield(buf: seq<Byte>, asdu: int, cause: int, connection: int, us: seq<Update>) {
    forall i :: 0 <= i < |us|
      ==> Yields(buf, i, us[i]) && us[i].asdu == asdu && us[i].cause == cause && us[i].connection == connection
  }

  lemma {:induction false} SlotsCollect(buf: seq<Byte>, asdu: int, cause: int, connection: int, us: seq<Update>)
    requires AllYield(buf, asdu, cause, connection, us)
    ensures Slots(buf, asdu, cause, connection, |us|) == Some(us)
  {
    for i := 0 to |us|
      invariant Slots(buf, asdu, cause, connection, i) == Some(us[..i])
    {
      SlotAppends(buf, asdu, cause, connection, i, us[i], us[..i]);
      assert us[..i + 1] == us[..i] + [us[i]];
    }
    assert us[..|us|] == us;
  }

  lemma {:induction false} SlotAppends(buf: seq<Byte>, asdu: int, cause: int, connection: int, i: nat, u: Update,
                                       before: seq<Update>)
    ensures Yields(buf, i, u) && u.asdu == asdu && u.cause == cause && u.connection == connection
            && Slots(buf, asdu, cause, connection, i) == Some(before)
            ==> Slots(buf, asdu, cause, connection, i + 1) == Some(before + [u])
  {
  }

  /** All items come back in order. */
  lemma {:induction false} SlotsReadBack(buf: seq<Byte>, asdu: int, cause: int, connection: int, items: seq<Item>)
    requires Carries(buf, asdu, items)
    ensures Slots(buf, asdu, cause, connection, |items|) == Some(Updates(asdu, cause, connection, items))
  {
    var us := Updates(asdu, cause, connection, items);
    forall i | 0 <= i < |us|
      ensures Yields(buf, i, us[i])
    {
      SlotReadsBack(buf, asdu, i, items[i]);
    }
    SlotsCollect(buf, asdu, cause, connection, us);
  }

  lemma {:induction false} SlotReadsBack(buf: seq<Byte>, asdu: int, i: nat, item: Item)
    requires HoldsItem(buf, asdu, i, item)
    ensures Slot(asdu, i) + 4 <= |buf| && ParseSlot(buf, asdu, i) == Read(item.point)
            && SlotAddress(buf, asdu, i) == item.addr
  {
    WordAt(buf, Slot(asdu, i), item.addr);
    ObjectAt(buf, Slot(asdu, i) + 4, asdu, item.point);
  }

  lemma {:induction false} ObjectAt(buf: seq<Byte>, at: nat, asdu: int, p: Point)
    requires Encodable(asdu, p) && At(buf, at, Body(asdu, p))
    ensures Parse(asdu, buf[at..]) == Read(p)
  {
    var body := Body(asdu, p);
    assert buf[at..] == body + buf[at + |body|..];
    ObjectReadsBack(asdu, p, buf[at + |body|..]);
  }

  datatype Header = Header(signature: int, first: int, asdu: int, primary: int, secondary: int, cause: int,
                           infoSize: int)

  predicate ValidHeader(h: Header) {
    IsU32(h.signature) && IsU32(h.first) && IsU32(h.asdu) && IsU32(h.primary) && IsU32(h.secondary) && IsU32(h.cause)
      && IsU32(h.infoSize)
  }

  function HeaderBytes(h: Header): (b: seq<Byte>)
    requires ValidHeader(h)
    ensures |b| == 28
  {
    LE32(h.signature) + LE32(h.first) + LE32(h.asdu) + LE32(h.primary) + LE32(h.secondary) + LE32(h.cause)
      + LE32(h.infoSize)
  }

  lemma {:induction false} WordInside(buf: seq<Byte>, b: seq<Byte>, at: nat, w: int)
    requires IsU32(w) && At(buf, 0, b) && At(b, at, LE32(w))
    ensures at + 4 <= |buf| && Word(buf, at) == w
  {
    AtInside(buf, 0, b, at, LE32(w));
    WordAt(buf, at, w);
  }

  lemma {:induction false} HeaderParts(h: Header)
    requires ValidHeader(h)
    ensures var b := HeaderBytes(h);
            At(b, 0, LE32(h.signature)) && At(b, 4, LE32(h.first)) && At(b, 8, LE32(h.asdu)) && At(b, 20, LE32(h.cause))
  {
  }

  /** Four words of a header are read. */
  lemma {:induction false} HeaderReadsBack(buf: seq<Byte>, h: Header)
    requires ValidHeader(h) && At(buf, 0, HeaderBytes(h))
    ensures Word(buf, 0) == h.signature && Word(buf, 4) == h.first && Word(buf, 8) == h.asdu && Word(buf, 20) == h.cause
  {
    var b := HeaderBytes(h);
    HeaderParts(h);
    WordInside(buf, b, 0, h.signature);
    WordInside(buf, b, 4, h.first);
    WordInside(buf, b, 8, h.asdu);
    WordInside(buf, b, 20, h.cause);
  }

  function Zeros(n: nat): seq<Byte> {
    seq(n, _ => 0)
  }

  predicate StaysInSlot(asdu: int) {
    0 < Need(asdu) && Need(asdu) + 4 <= SlotSize(asdu)
  }

  function SlotBytes(asdu: int, item: Item): (b: seq<Byte>)
    requires IsU32(item.addr) && Encodable(asdu, item.point) && StaysInSlot(asdu)
    ensures |b| == SlotSize(asdu)
  {
    LE32(item.addr) + Body(asdu, item.point) + Zeros(SlotSize(asdu) - 4 - Need(asdu))
  }

  function Joined(pieces: seq<seq<Byte>>): seq<Byte>
    decreases |pieces|
  {
    if pieces == [] then [] else Joined(pieces[..|pieces| - 1]) + pieces[|pieces| - 1]
  }

  lemma {:induction false} JoinedLength(pieces: seq<seq<Byte>>, size: nat)
    requires forall k :: 0 <= k < |pieces| ==> |pieces[k]| == size
    ensures |Joined(pieces)| == |pieces| * size
    decreases |pieces|
  {
    if pieces != [] {
      JoinedLength(pieces[..|pieces| - 1], size);
    }
  }

  lemma {:induction false} PieceAt(pieces: seq<seq<Byte>>, i: nat)
    requires i < |pieces|
    ensures At(Joined(pieces), |Joined(pieces[..i])|, pieces[i])
    decreases |pieces|
  {
    var n := |pieces| - 1;
    var front := pieces[..n];
    if i < n {
      PieceAt(front, i);
      assert front[..i] == pieces[..i];
      AtPrefix(Joined(front), |Joined(pieces[..i])|, pieces[i], pieces[n]);
    } else {
      AtEnd(Joined(front), pieces[n]);
    }
  }

  lemma {:induction false} AtPrefix(s: seq<Byte>, at: nat, piece: seq<Byte>, rest: seq<Byte>)
    requires At(s, at, piece)
    ensures At(s + rest, at, piece)
  {
    assert (s + rest)[at..at + |piece|] == s[at..at + |piece|];
  }

  lemma {:induction false} AtEnd(s: seq<Byte>, piece: seq<Byte>)
    ensures At(s + piece, |s|, piece)
  {
  }

  function SlotPieces(asdu: int, items: seq<Item>): (pieces: seq<seq<Byte>>)
    requires Writable(asdu, items) && StaysInSlot(asdu)
    ensures |pieces| == |items| && forall k :: 0 <= k < |pieces| ==> |pieces[k]| == SlotSize(asdu)
  {
    seq(|items|, i requires 0 <= i < |items| => SlotBytes(asdu, items[i]))
  }

  lemma {:induction false} SlotHolds(all: seq<Byte>, asdu: int, i: nat, item: Item, slot: seq<Byte>)
    requires IsU32(item.addr) && Encodable(asdu, item.point) && At(all, Slot(asdu, i), slot)
    requires At(slot, 0, LE32(item.addr)) && At(slot, 4, Body(asdu, item.point))
    ensures HoldsItem(all, asdu, i, item)
  {
    AtInside(all, Slot(asdu, i), slot, 0, LE32(item.addr));
    AtInside(all, Slot(asdu, i), slot, 4, Body(asdu, item.point));
  }

  lemma {:induction false} PiecesCarry(buf: seq<Byte>, asdu: int, items: seq<Item>, pieces: seq<seq<Byte>>)
    requires Writable(asdu, items) && |pieces| == |items| && At(buf, 28, Joined(pieces))
    requires forall i :: 0 <= i < |items| ==>
               && |pieces[i]| == SlotSize(asdu)
               && At(pieces[i], 0, LE32(items[i].addr)) && At(pieces[i], 4, Body(asdu, items[i].point))
    ensures Carries(buf, asdu, items)
  {
    forall i | 0 <= i < |items|
      ensures HoldsItem(buf, asdu, i, items[i])
    {
      PieceAt(pieces, i);
      JoinedLength(pieces[..i], SlotSize(asdu));
      AtInside(buf, 28, Joined(pieces), i * SlotSize(asdu), pieces[i]);
      SlotHolds(buf, asdu, i, items[i], pieces[i]);
    }
  }

  lemma {:induction false} SlotPiecesCarry(buf: seq<Byte>, asdu: int, items: seq<Item>)
    requires Writable(asdu, items) && StaysInSlot(asdu) && At(buf, 28, Joined(SlotPieces(asdu, items)))
    ensures Carries(buf, asdu, items)
  {
    var pieces := SlotPieces(asdu, items);
    forall i | 0 <= i < |items|
      ensures At(pieces[i], 0, LE32(items[i].addr)) && At(pieces[i], 4, Body(asdu, items[i].point))
    {
      SlotParts(asdu, items[i]);
    }
    PiecesCarry(buf, asdu, items, pieces);
  }

  lemma {:induction false} SlotParts(asdu: int, item: Item)
    requires IsU32(item.addr) && Encodable(asdu, item.point) && StaysInSlot(asdu)
    ensures At(SlotBytes(asdu, item), 0, LE32(item.addr)) && At(SlotBytes(asdu, item), 4, Body(asdu, item.point))
  {
  }

  /** No bulk write is issued without operations. */
  function Written(opers: seq<Update>): Received {
    if opers == [] then Ignored else Write(opers)
  }

  predicate StartsWith(buf: seq<Byte>, h: Header, signature: int) {
    |buf| == BUFFER_SIZE && ValidHeader(h) && h.signature == signature && At(buf, 0, HeaderBytes(h))
  }

  /** A buffer that starts with a sequence header and carries its items comes back as those items, in order. */
  lemma {:induction false} SequenceFrameReadsBack(buf: seq<Byte>, h: Header, items: seq<Item>, connection: int)
    ensures StartsWith(buf, h, SEQUENCE_SIGNATURE) && SlotSize(h.asdu) > 0 && h.first == |items|
            && Carries(buf, h.asdu, items)
            ==> Packet(buf, connection) == Written(Updates(h.asdu, h.cause, connection, items))
  {
    if StartsWith(buf, h, SEQUENCE_SIGNATURE) && Carries(buf, h.asdu, items) {
      HeaderReadsBack(buf, h);
      SlotsReadBack(buf, h.asdu, h.cause, connection, items);
    }
  }

  lemma {:induction false} InThreeParts(head: seq<Byte>, body: seq<Byte>, rest: seq<Byte>)
    ensures At(head + body + rest, 0, head) && At(head + body + rest, |head|, body)
  {
  }

  function SequenceFrameBytes(h: Header, items: seq<Item>, rest: seq<Byte>): seq<Byte>
    requires ValidHeader(h) && Writable(h.asdu, items) && StaysInSlot(h.asdu)
  {
    HeaderBytes(h) + Joined(SlotPieces(h.asdu, items)) + rest
  }

  lemma {:induction false} FrameCarries(head: seq<Byte>, asdu: int, items: seq<Item>, rest: seq<Byte>)
    requires |head| == 28 && Writable(asdu, items) && StaysInSlot(asdu)
    ensures var buf := head + Joined(SlotPieces(asdu, items)) + rest;
            |buf| == Slot(asdu, |items|) + |rest| && At(buf, 0, head) && Carries(buf, asdu, items)
  {
    var body := Joined(SlotPieces(asdu, items));
    JoinedLength(SlotPieces(asdu, items), SlotSize(asdu));
    InThreeParts(head, body, rest);
    SlotPiecesCarry(head + body + rest, asdu, items);
  }

  /** Every sequence of points of a type that stays in its slot can be written, up to the size of the buffer. */
  lemma {:induction false} WrittenFrameReadsBack(h: Header, items: seq<Item>, rest: seq<Byte>, connection: int)
    requires ValidHeader(h) && Writable(h.asdu, items) && StaysInSlot(h.asdu)
    requires h.signature == SEQUENCE_SIGNATURE && h.first == |items| && Slot(h.asdu, |items|) + |rest| == BUFFER_SIZE
    ensures |SequenceFrameBytes(h, items, rest)| == BUFFER_SIZE
    ensures Packet(SequenceFrameBytes(h, items, rest), connection)
            == Written(Updates(h.asdu, h.cause, connection, items))
  {
    FrameCarries(HeaderBytes(h), h.asdu, items, rest);
    SequenceFrameReadsBack(SequenceFrameBytes(h, items, rest), h, items, connection);
  }

  function SingleFrameBytes(h: Header, point: Point, rest: seq<Byte>): seq<Byte>
    requires ValidHeader(h) && Encodable(h.asdu, point)
  {
    HeaderBytes(h) + Body(h.asdu, point) + rest
  }

  lemma {:induction false} SinglePacket(buf: seq<Byte>, h: Header, point: Point, connection: int)
    ensures StartsWith(buf, h, SINGLE_SIGNATURE) && Parse(h.asdu, buf[28..]) == Read(point)
            ==> Packet(buf, connection) == Write([Update(connection, h.first, h.asdu, h.cause, point)])
  {
    if StartsWith(buf, h, SINGLE_SIGNATURE) {
      HeaderReadsBack(buf, h);
    }
  }

  lemma {:induction false} PartsOf(head: seq<Byte>, body: seq<Byte>, rest: seq<Byte>)
    ensures At(head + body + rest, 0, head) && (head + body + rest)[|head|..] == body + rest
  {
  }

  /** A single frame comes back as its one item, for every type the decoder knows. */
  lemma {:induction false} SingleFrameReadsBack(h: Header, point: Point, rest: seq<Byte>, connection: int)
    requires ValidHeader(h) && h.signature == SINGLE_SIGNATURE && Encodable(h.asdu, point)
    requires 28 + Need(h.asdu) + |rest| == BUFFER_SIZE
    ensures Packet(SingleFrameBytes(h, point, rest), connection)
            == Write([Update(connection, h.first, h.asdu, h.cause, point)])
  {
    ObjectReadsBack(h.asdu, point, rest);
    PartsOf(HeaderBytes(h), Body(h.asdu, point), rest);
    SinglePacket(SingleFrameBytes(h, point, rest), h, point, connection);
  }

  // ---------------------------------------------------------------- frames as the standard lays them out

  /** Octets of the information element and its quality. */
  function ElementOctets(asdu: int): nat {
    if asdu == 1 || asdu == 2 || asdu == 3 || asdu == 4 || asdu == 30 || asdu == 31 then 1
    else if asdu == 5 || asdu == 32 then 2
    else if asdu == 9 || asdu == 11 || asdu == 34 || asdu == 35 then 3
    else 5
  }

  /** Octets of the time tag. */
  function TagOctets(asdu: int): nat {
    if asdu == 2 || asdu == 4 then 3 else if asdu >= 30 then 7 else 0
  }

  /** The distance of two objects is four address octets, the element and the tag; every other type is refused. */
  lemma {:induction false} SlotSizeIsStandard(asdu: int)
    ensures SlotSize(asdu) == if asdu in {1, 2, 3, 4, 5, 9, 11, 13, 15, 30, 31, 32, 34, 35, 36}
                              then 4 + ElementOctets(asdu) + TagOctets(asdu) else 0
  {
  }

  /** The types whose tag, if they have one, is decoded or skipped within the object. */
  predicate IsRegular(asdu: int) {
    asdu in {1, 3, 5, 9, 11, 13, 30, 31, 32, 34, 35, 36}
  }

  /**
   An object: address, element with its quality and, for types 30 and 31, its time; the other types with time
   have seven more octets.
   */
  predicate IsObject(asdu: int, item: Item, tag: seq<Byte>, octets: seq<Byte>) {
    && IsU32(item.addr) && Encodable(asdu, item.point)
    && |tag| == (if asdu in {32, 34, 35, 36} then 7 else 0)
    && octets == LE32(item.addr) + Body(asdu, item.point) + tag
  }

  lemma {:induction false} ObjectFillsSlot(asdu: int, item: Item, tag: seq<Byte>, octets: seq<Byte>)
    requires IsRegular(asdu) && IsObject(asdu, item, tag, octets)
    ensures |octets| == SlotSize(asdu) && At(octets, 0, LE32(item.addr)) && At(octets, 4, Body(asdu, item.point))
  {
    InThreeParts(LE32(item.addr), Body(asdu, item.point), tag);
  }

  lemma {:induction false} SameOctets(x: Byte, w: int)
    requires w == x as int * 0x101_0101
    ensures IsU32(w) && LE32(w) == [x, x, x, x]
  {
    assert w % 0x1_0000 == x as int * 0x101 && w / 0x1_0000 == x as int * 0x101;
    SameTwo(x, x as int * 0x101);
  }

  lemma {:induction false} SameTwo(x: Byte, w: int)
    requires w == x as int * 0x101
    ensures w < 0x1_0000 && LE16(w) == [x, x]
  {
  }

  /** The head of a packet, word by word. */
  function HeadOctets(mark: Byte, count: int, asdu: int, primary: int, secondary: int, cause: int,
                      infoSize: int): (b: seq<Byte>)
    requires IsU32(count) && IsU32(asdu) && IsU32(primary) && IsU32(secondary) && IsU32(cause) && IsU32(infoSize)
    ensures |b| == 28
  {
    [mark, mark, mark, mark] + LE32(count) + LE32(asdu) + LE32(primary) + LE32(secondary) + LE32(cause) + LE32(infoSize)
  }

  lemma {:induction false} HeadIsHeader(count: int, asdu: int, primary: int, secondary: int, cause: int, infoSize: int)
    requires IsU32(count) && IsU32(asdu) && IsU32(primary) && IsU32(secondary) && IsU32(cause) && IsU32(infoSize)
    ensures HeadOctets(0x64, count, asdu, primary, secondary, cause, infoSize)
            == HeaderBytes(Header(SEQUENCE_SIGNATURE, count, asdu, primary, secondary, cause, infoSize))
    ensures HeadOctets(0x53, count, asdu, primary, secondary, cause, infoSize)
            == HeaderBytes(Header(SINGLE_SIGNATURE, count, asdu, primary, secondary, cause, infoSize))
  {
    SameOctets(0x64, SEQUENCE_SIGNATURE);
    SameOctets(0x53, SINGLE_SIGNATURE);
  }

  /**
   A packet of 2048 octets, made of the mark, six words and one object after the other as the standard lays them
   out, is turned into one update per object: its address, value, quality and, for types 30 and 31, its time.
   */
  lemma {:induction false} StandardFrameReadsBack(asdu: int, items: seq<Item>, tags: seq<seq<Byte>>,
                                                  objects: seq<seq<Byte>>,
                                                  primary: int, secondary: int, cause: int, infoSize: int,
                                                  rest: seq<Byte>, connection: int)
    requires IsRegular(asdu) && IsU32(|items|) && IsU32(primary) && IsU32(secondary) && IsU32(cause) && IsU32(infoSize)
    requires |tags| == |items| == |objects|
    requires forall i :: 0 <= i < |items| ==> IsObject(asdu, items[i], tags[i], objects[i])
    requires 28 + |Joined(objects)| + |rest| == 2048
    ensures var packet := HeadOctets(0x64, |items|, asdu, primary, secondary, cause, infoSize) + Joined(objects) + rest;
            && |packet| == 2048
            && (items == [] ==> Packet(packet, connection) == Ignored)
            && (items != [] ==>
                  && Packet(packet, connection).Write? && |Packet(packet, connection).opers| == |items|
                  && forall i :: 0 <= i < |items| ==>
                       Packet(packet, connection).opers[i]
                         == Update(connection, items[i].addr, asdu, cause, items[i].point))
  {
    HeadIsRead(|items|, asdu, primary, secondary, cause, infoSize);
    ObjectsReadBack(HeadOctets(0x64, |items|, asdu, primary, secondary, cause, infoSize), asdu, cause, items, tags,
                    objects,
                    rest, connection);
    WrittenMeans(asdu, cause, connection, items);
  }

  /** The four words that are read of the head of a sequence packet. */
  predicate SequenceHead(b: seq<Byte>, count: int, asdu: int, cause: int) {
    |b| >= 28 && Word(b, 0) == SEQUENCE_SIGNATURE && Word(b, 4) == count && Word(b, 8) == asdu && Word(b, 20) == cause
  }

  lemma {:induction false} HeadIsRead(count: int, asdu: int, primary: int, secondary: int, cause: int, infoSize: int)
    requires IsU32(count) && IsU32(asdu) && IsU32(primary) && IsU32(secondary) && IsU32(cause) && IsU32(infoSize)
    ensures SequenceHead(HeadOctets(0x64, count, asdu, primary, secondary, cause, infoSize), count, asdu, cause)
  {
    var h := Header(SEQUENCE_SIGNATURE, count, asdu, primary, secondary, cause, infoSize);
    HeadIsHeader(count, asdu, primary, secondary, cause, infoSize);
    HeaderReadsBack(HeaderBytes(h), h);
  }

  lemma {:induction false} SameWord(packet: seq<Byte>, head: seq<Byte>, k: nat)
    requires At(packet, 0, head) && k + 4 <= |head|
    ensures Word(packet, k) == Word(head, k)
  {
    assert forall j :: 0 <= j < |head| ==> packet[j] == packet[0..|head|][j];
    assert packet[k..][..4] == head[k..][..4];
  }

  lemma {:induction false} HeadStays(packet: seq<Byte>, head: seq<Byte>, count: int, asdu: int, cause: int)
    requires At(packet, 0, head) && SequenceHead(head, count, asdu, cause)
    ensures SequenceHead(packet, count, asdu, cause)
  {
    SameWord(packet, head, 0);
    SameWord(packet, head, 4);
    SameWord(packet, head, 8);
    SameWord(packet, head, 20);
  }

  lemma {:induction false} CarriedReadBack(packet: seq<Byte>, asdu: int, items: seq<Item>, cause: int, connection: int)
    requires |packet| == BUFFER_SIZE && SequenceHead(packet, |items|, asdu, cause) && SlotSize(asdu) > 0
    requires Carries(packet, asdu, items)
    ensures Packet(packet, connection) == Written(Updates(asdu, cause, connection, items))
  {
    SlotsReadBack(packet, asdu, cause, connection, items);
  }

  lemma {:induction false} ObjectsReadBack(head: seq<Byte>, asdu: int, cause: int, items: seq<Item>,
                                           tags: seq<seq<Byte>>,
                                           objects: seq<seq<Byte>>, rest: seq<Byte>, connection: int)
    requires |head| == 28 && SequenceHead(head, |items|, asdu, cause) && IsRegular(asdu)
             && |tags| == |items| == |objects|
    requires forall i :: 0 <= i < |items| ==> IsObject(asdu, items[i], tags[i], objects[i])
    requires 28 + |Joined(objects)| + |rest| == BUFFER_SIZE
    ensures Packet(head + Joined(objects) + rest, connection) == Written(Updates(asdu, cause, connection, items))
  {
    var packet := head + Joined(objects) + rest;
    InThreeParts(head, Joined(objects), rest);
    HeadStays(packet, head, |items|, asdu, cause);
    ObjectsCarry(packet, asdu, items, tags, objects);
    CarriedReadBack(packet, asdu, items, cause, connection);
  }

  lemma {:induction false} ObjectsCarry(packet: seq<Byte>, asdu: int, items: seq<Item>, tags: seq<seq<Byte>>,
                                        objects: seq<seq<Byte>>)
    requires IsRegular(asdu) && |tags| == |items| == |objects| && At(packet, 28, Joined(objects))
    requires forall i :: 0 <= i < |items| ==> IsObject(asdu, items[i], tags[i], objects[i])
    ensures Carries(packet, asdu, items)
  {
    forall i | 0 <= i < |items|
      ensures IsU32(items[i].addr) && Encodable(asdu, items[i].point) && |objects[i]| == SlotSize(asdu)
      ensures At(objects[i], 0, LE32(items[i].addr)) && At(objects[i], 4, Body(asdu, items[i].point))
    {
      ObjectFillsSlot(asdu, items[i], tags[i], objects[i]);
    }
    PiecesCarry(packet, asdu, items, objects);
  }

  lemma {:induction false} WrittenMeans(asdu: int, cause: int, connection: int, items: seq<Item>)
    ensures var r := Written(Updates(asdu, cause, connection, items));
            && (items == [] ==> r == Ignored)
            && (items != [] ==>
                  && r.Write? && |r.opers| == |items|
                  && forall i :: 0 <= i < |items|
                       ==> r.opers[i] == Update(connection, items[i].addr, asdu, cause, items[i].point))
  {
  }

  /** A single packet has its address in place of the number of objects. */
  lemma {:induction false} StandardSingleReadsBack(asdu: int, addr: int, point: Point, primary: int, secondary: int,
                                                   cause: int,
                                                   infoSize: int, rest: seq<Byte>, connection: int)
    requires IsU32(addr) && IsU32(asdu) && IsU32(primary) && IsU32(secondary) && IsU32(cause) && IsU32(infoSize)
    requires Encodable(asdu, point) && 28 + |Body(asdu, point)| + |rest| == 2048
    ensures Packet(HeadOctets(0x53, addr, asdu, primary, secondary, cause, infoSize) + Body(asdu, point)
                   + rest, connection)
            == Write([Update(connection, addr, asdu, cause, point)])
  {
    HeadIsHeader(addr, asdu, primary, secondary, cause, infoSize);
    SingleFrameReadsBack(Header(SINGLE_SIGNATURE, addr, asdu, primary, secondary, cause, infoSize), point, rest,
                         connection);
  }

  // ---------------------------------------------------------------- against IEC 60870-5-101

  /** The seven bytes of CP56Time2a, section 7.2.6.18. */
  datatype Cp56 = Cp56(ms: int, minute: int, iv: bool, hour: int, su: bool, day: int, dayOfWeek: int, month: int,
                       year: int)

  predicate ValidCp56(t: Cp56) {
    && 0 <= t.ms < 60000 && 0 <= t.minute < 60 && 0 <= t.hour < 24 && 1 <= t.day <= 31
    && 0 <= t.dayOfWeek < 8 && 1 <= t.month <= 12 && 0 <= t.year < 100
  }

  function Cp56Bytes(t: Cp56): (b: seq<Byte>)
    requires ValidCp56(t)
    ensures |b| == 7
  {
    LE16(t.ms) + [MinuteByte(t.minute, t.iv), t.hour + Bit(t.su, 0x80), t.day + 0x20 * t.dayOfWeek, t.month, t.year]
  }

  lemma {:induction false} StandardTimeRead(f: Byte, t: Cp56, rest: seq<Byte>)
    requires ValidCp56(t)
    ensures var b := [f] + Cp56Bytes(t) + rest;
            && TimeOf(b) == Time(2000 + t.year, t.month, t.day + 0x20 * t.dayOfWeek, t.hour + Bit(t.su, 0x80),
                                 t.minute, t.ms / 1000, t.ms % 1000)
            && Mask(b[3], 0x80) == t.iv
  {
    var b := [f] + Cp56Bytes(t) + rest;
    assert forall k :: 1 <= k < 8 ==> b[k] == Cp56Bytes(t)[k - 1];
  }

  /** The standard's time is read as sent exactly when it carries neither the summer-time bit nor a day of the week. */
  lemma {:induction false} StandardTimeReadsBackIff(asdu: int, f: Byte, t: Cp56, rest: seq<Byte>)
    requires Timed(asdu) && ValidCp56(t)
    ensures var r := Parse(asdu, [f] + Cp56Bytes(t) + rest);
            && r.Read? && r.point.timeOk == !t.iv
            && (r.point.time == Some(Time(2000 + t.year, t.month, t.day, t.hour, t.minute, t.ms / 1000, t.ms % 1000))
                <==> !t.su && t.dayOfWeek == 0)
  {
    StandardTimeRead(f, t, rest);
  }

  /**
   A step position is signed in the standard (section 7.2.6.5) and read unsigned: negative values come out 128
   too high.
   */
  lemma {:induction false} StepPositionReadsBackIff(asdu: int, v: int, transient: bool, f: Byte, rest: seq<Byte>)
    requires StepPosition(asdu) && -64 <= v < 64
    ensures var r := Parse(asdu, [v % 0x80 + Bit(transient, 0x80), f] + rest);
            && r.Read? && r.point.transient == transient
            && (r.point.value == Number(v) <==> v >= 0)
            && (v < 0 ==> r.point.value == Number(v + 0x80))
  {
  }
}
