/**
 The life of a command in the I104M driver
 (iterateChangeStream, commandCancel and commandDelivered, src/i104m/i104m.go:171-316).
 Writing to a memory buffer and updating the command's document never fail here.
 */
module I104mCommands {
  import opened Options
  import opened I104mFrames

  const COMMAND_SIGNATURE: int := 0x4b4b4b4b
  const MAX_AGE_MS: int := 10_000

  /** `value` is already truncated to an integer. */
  datatype Command = Command(id: int, connection: int, objAddr: int, asdu: int, value: int, useSBO: bool, duration: int,
                             commonAddress: int)

  /** What the network makes of one address. */
  datatype Reply = Unresolved | SendFails | Accepts

  /** One event of the change stream, with what the driver finds when it handles it. */
  datatype Event = Event(active: bool, decoded: bool, insert: bool, cmd: Command, ageMs: int, first: Reply,
                         second: Reply)

  datatype Datagram = Datagram(id: int, destination: string, payload: seq<Byte>)

  /** The outcome fields of a document of commandsQueue. */
  datatype Doc = Doc(delivered: bool, cancelReason: Option<string>)

  const UNTOUCHED := Doc(false, None)

  datatype State = State(docs: map<int, Doc>, datagrams: seq<Datagram>)

  function DocOf(docs: map<int, Doc>, id: int): Doc {
    if id in docs then docs[id] else UNTOUCHED
  }

  function Cancelled(docs: map<int, Doc>, id: int, reason: string): map<int, Doc> {
    docs[id := DocOf(docs, id).(cancelReason := Some(reason))]
  }

  function Delivered(docs: map<int, Doc>, id: int): map<int, Doc> {
    docs[id := DocOf(docs, id).(delivered := true)]
  }

  // ---------------------------------------------------------------- sending

  predicate IsSpace(c: char) {
    c == ' ' || '\t' <= c <= '\r'
  }

  predicate Blank(s: string) {
    forall i :: 0 <= i < |s| ==> IsSpace(s[i])
  }

  datatype Attempt = NoDestination | AddressError | SendError | Success

  function Try(addresses: seq<string>, e: Event, i: nat): Attempt
    requires i < |addresses|
  {
    if Blank(addresses[i]) then NoDestination
    else
      match (if i == 0 then e.first else e.second)
      case Unresolved => AddressError
      case SendFails => SendError
      case Accepts => Success
  }

  function Reason(a: Attempt): string {
    match a
    case NoDestination => "no IP destination"
    case AddressError => "IP address error"
    case SendError => "UDP send error"
    case Success => ""
  }

  /** Only the first two addresses are used. */
  function Used(addresses: seq<string>): nat {
    if |addresses| < 2 then |addresses| else 2
  }

  function Sent(addresses: seq<string>, e: Event, n: nat): seq<Datagram>
    requires n <= |addresses|
  {
    if n == 0 then []
    else
      Sent(addresses, e, n - 1)
      + (if Try(addresses, e, n - 1) == Success then [Datagram(e.cmd.id, addresses[n - 1], Payload(e.cmd))] else [])
  }

  /** The message left by the last attempt that failed. */
  function LastError(addresses: seq<string>, e: Event, n: nat): string
    requires n <= |addresses|
  {
    if n == 0 then ""
    else if Try(addresses, e, n - 1) == Success then LastError(addresses, e, n - 1)
    else Reason(Try(addresses, e, n - 1))
  }

  function Uint32Of(n: int): (w: int)
    ensures IsU32(w)
  {
    n % 0x1_0000_0000
  }

  datatype CommandWords = CommandWords(objAddr: int, asdu: int, value: int, useSBO: int, duration: int,
                                       commonAddress: int)

  predicate AllU32(w: CommandWords) {
    IsU32(w.objAddr) && IsU32(w.asdu) && IsU32(w.value) && IsU32(w.useSBO) && IsU32(w.duration)
      && IsU32(w.commonAddress)
  }

  function WordsOf(c: Command): CommandWords {
    CommandWords(c.objAddr, c.asdu, c.value, if c.useSBO then 1 else 0, c.duration, c.commonAddress)
  }

  function Truncated(w: CommandWords): (t: CommandWords)
    ensures AllU32(t)
  {
    CommandWords(Uint32Of(w.objAddr), Uint32Of(w.asdu), Uint32Of(w.value), Uint32Of(w.useSBO), Uint32Of(w.duration),
                 Uint32Of(w.commonAddress))
  }

  function PayloadOf(w: CommandWords): (b: seq<Byte>)
    requires AllU32(w)
    ensures |b| == 28
  {
    LE32(COMMAND_SIGNATURE) + LE32(w.objAddr) + LE32(w.asdu) + LE32(w.value) + LE32(w.useSBO) + LE32(w.duration)
      + LE32(w.commonAddress)
  }

  function Payload(c: Command): (b: seq<Byte>)
    ensures |b| == 28
  {
    PayloadOf(Truncated(WordsOf(c)))
  }

  // ---------------------------------------------------------------- the effect of events

  predicate Mine(connection: int, e: Event) {
    e.decoded && e.insert && e.cmd.connection == connection
  }

  predicate Expired(e: Event) {
    e.ageMs > MAX_AGE_MS
  }

  function Handle(connection: int, addresses: seq<string>, s: State, e: Event): State {
    if !Mine(connection, e) then s
    else if Expired(e) then s.(docs := Cancelled(s.docs, e.cmd.id, "expired"))
    else
      var sent := Sent(addresses, e, Used(addresses));
      State(if sent != [] then Delivered(s.docs, e.cmd.id)
            else Cancelled(s.docs, e.cmd.id, LastError(addresses, e, Used(addresses))),
            s.datagrams + sent)
  }

  /** The stream is left for good at the first event that finds the driver inactive. */
  function Run(connection: int, addresses: seq<string>, s: State, events: seq<Event>): State
    decreases |events|
  {
    if events == [] || !events[0].active then s
    else Run(connection, addresses, Handle(connection, addresses, s, events[0]), events[1..])
  }

  // ---------------------------------------------------------------- the program

  class CommandForwarder {
    const connection: int
    const addresses: seq<string>
    var docs: map<int, Doc>
    var datagrams: seq<Datagram>

    constructor (connection: int, addresses: seq<string>)
      ensures this.connection == connection && this.addresses == addresses
      ensures docs == map[] && datagrams == []
    {
      this.connection, this.addresses := connection, addresses;
      docs, datagrams := map[], [];
    }

    function Contents(): State
      reads this
    {
      State(docs, datagrams)
    }

    method CommandCancel(id: int, reason: string)
      modifies this`docs
      ensures docs == Cancelled(old(docs), id, reason)
    {
      docs := docs[id := DocOf(docs, id).(cancelReason := Some(reason))];
    }

    method CommandDelivered(id: int)
      modifies this`docs
      ensures docs == Delivered(old(docs), id)
    {
      docs := docs[id := DocOf(docs, id).(delivered := true)];
    }

    method Forward(e: Event)
      modifies this
      ensures Contents() == Handle(connection, addresses, old(Contents()), e)
    {
      if !e.decoded || !e.insert || e.cmd.connection != connection {
        return;
      }
      if e.ageMs > MAX_AGE_MS {
        CommandCancel(e.cmd.id, "expired");
        return;
      }
      var buf := Payload(e.cmd);
      var errMsg, ok := "", false;
      var i := 0;
      while i < |addresses|
        invariant i <= Used(addresses)
        invariant docs == old(docs) && datagrams == old(datagrams) + Sent(addresses, e, i)
        invariant ok == (Sent(addresses, e, i) != []) && errMsg == LastError(addresses, e, i)
      {
        if i >= 2 {
          break;
        }
        var attempt := Try(addresses, e, i);
        if attempt == Success {
          datagrams := datagrams + [Datagram(e.cmd.id, addresses[i], buf)];
          ok := true;
        } else {
          errMsg := Reason(attempt);
        }
        i := i + 1;
      }
      if ok {
        CommandDelivered(e.cmd.id);
      } else {
        CommandCancel(e.cmd.id, errMsg);
      }
    }

    method IterateChangeStream(events: seq<Event>)
      modifies this
      ensures Contents() == Run(connection, addresses, old(Contents()), events)
    {
      var i := 0;
      while i < |events|
        invariant i <= |events|
        invariant Run(connection, addresses, Contents(), events[i..])
                  == Run(connection, addresses, old(Contents()), events)
      {
        if !events[i].active {
          return;
        }
        Forward(events[i]);
        assert events[i..][1..] == events[i + 1..];
        i := i + 1;
      }
    }
  }

  // ---------------------------------------------------------------- one command

  /**
   A datagram goes out exactly when one of the first two addresses takes it, and the last failure is the reason
   otherwise.
   */
  lemma {:induction false} SentIff(addresses: seq<string>, e: Event, n: nat)
    requires n <= |addresses|
    ensures Sent(addresses, e, n) != [] <==> exists i :: 0 <= i < n && Try(addresses, e, i) == Success
    ensures |Sent(addresses, e, n)| <= n
    ensures forall d :: d in Sent(addresses, e, n)
              ==> d.id == e.cmd.id && d.payload == Payload(e.cmd) && d.destination in addresses[..n]
                  && !Blank(d.destination)
    ensures Sent(addresses, e, n) == [] && n > 0 ==> LastError(addresses, e, n) == Reason(Try(addresses, e, n - 1))
  {
    if n > 0 {
      SentIff(addresses, e, n - 1);
    }
  }

  function DatagramsOf(datagrams: seq<Datagram>, id: int): seq<Datagram>
    decreases |datagrams|
  {
    if datagrams == [] then []
    else if datagrams[0].id == id then [datagrams[0]] + DatagramsOf(datagrams[1..], id)
    else DatagramsOf(datagrams[1..], id)
  }

  lemma {:induction false} DatagramsOfAppend(a: seq<Datagram>, b: seq<Datagram>, id: int)
    ensures DatagramsOf(a + b, id) == DatagramsOf(a, id) + DatagramsOf(b, id)
    decreases |a|
  {
    if a == [] {
      assert a + b == b;
    } else {
      assert (a + b)[1..] == a[1..] + b;
      DatagramsOfAppend(a[1..], b, id);
    }
  }

  lemma {:induction false} AllOrNone(ds: seq<Datagram>, owner: int, id: int)
    requires forall d :: d in ds ==> d.id == owner
    ensures DatagramsOf(ds, id) == if owner == id then ds else []
    decreases |ds|
  {
    if ds != [] {
      AllOrNone(ds[1..], owner, id);
    }
  }

  lemma {:induction false} HandleDatagrams(connection: int, addresses: seq<string>, s: State, e: Event, id: int)
    ensures DatagramsOf(Handle(connection, addresses, s, e).datagrams, id)
            == DatagramsOf(s.datagrams, id)
               + (if Mine(connection, e) && !Expired(e) && e.cmd.id == id
                  then Sent(addresses, e, Used(addresses)) else [])
  {
    if Mine(connection, e) && !Expired(e) {
      var sent := Sent(addresses, e, Used(addresses));
      SentIff(addresses, e, Used(addresses));
      DatagramsOfAppend(s.datagrams, sent, id);
      AllOrNone(sent, e.cmd.id, id);
    }
  }

  // ---------------------------------------------------------------- whole streams

  ghost predicate Mentions(connection: int, events: seq<Event>, id: int) {
    exists k :: 0 <= k < |events| && Mine(connection, events[k]) && events[k].cmd.id == id
  }

  /** A command that does not occur is left alone. */
  lemma {:induction false} OthersUntouched(connection: int, addresses: seq<string>, s: State, events: seq<Event>,
                                           id: int)
    requires !Mentions(connection, events, id)
    ensures var t := Run(connection, addresses, s, events);
            DocOf(t.docs, id) == DocOf(s.docs, id) && DatagramsOf(t.datagrams, id) == DatagramsOf(s.datagrams, id)
    decreases |events|
  {
    if events != [] && events[0].active {
      HandleDatagrams(connection, addresses, s, events[0], id);
      assert Mine(connection, events[0]) ==> events[0].cmd.id != id;
      assert forall k :: 0 <= k < |events[1..]| ==> events[1..][k] == events[k + 1];
      OthersUntouched(connection, addresses, Handle(connection, addresses, s, events[0]), events[1..], id);
    }
  }

  /** Each command is inserted once. */
  ghost predicate DistinctCommands(connection: int, events: seq<Event>) {
    forall j, k :: 0 <= j < k < |events| && Mine(connection, events[j]) && Mine(connection, events[k])
                   ==> events[j].cmd.id != events[k].cmd.id
  }

  predicate Fresh(s: State, id: int) {
    DocOf(s.docs, id) == UNTOUCHED && DatagramsOf(s.datagrams, id) == []
  }

  predicate ActiveUpTo(events: seq<Event>, k: nat)
    requires k < |events|
  {
    forall j :: 0 <= j <= k ==> events[j].active
  }

  predicate Reaches(addresses: seq<string>, e: Event) {
    !Expired(e) && exists i :: 0 <= i < Used(addresses) && Try(addresses, e, i) == Success
  }

  /** The document and the datagrams of one command. */
  predicate Settled(addresses: seq<string>, t: State, e: Event) {
    var doc, sent := DocOf(t.docs, e.cmd.id), DatagramsOf(t.datagrams, e.cmd.id);
    && doc.delivered == Reaches(addresses, e)
    && doc.cancelReason == (if doc.delivered then None
                            else if Expired(e) then Some("expired")
                            else Some(LastError(addresses, e, Used(addresses))))
    && sent == (if Expired(e) then [] else Sent(addresses, e, Used(addresses)))
    && |sent| <= 2
  }

  /**
   In every stream a command insert of this connection is settled, with exactly one outcome and at most
   two datagrams, when the driver is active at it and at every event before; otherwise it is never touched.
   */
  lemma {:induction false} EveryCommandSettles(connection: int, addresses: seq<string>, s: State, events: seq<Event>,
                                               k: nat)
    requires k < |events| && Mine(connection, events[k]) && DistinctCommands(connection, events)
             && Fresh(s, events[k].cmd.id)
    ensures var t := Run(connection, addresses, s, events);
            if ActiveUpTo(events, k) then Settled(addresses, t, events[k]) else Fresh(t, events[k].cmd.id)
    decreases |events|
  {
    if events[0].active {
      var next, rest, e := Handle(connection, addresses, s, events[0]), events[1..], events[k];
      HandleDatagrams(connection, addresses, s, events[0], e.cmd.id);
      assert forall j :: 0 <= j < |rest| ==> rest[j] == events[j + 1];
      if k == 0 {
        assert !Mentions(connection, rest, e.cmd.id);
        OthersUntouched(connection, addresses, next, rest, e.cmd.id);
        SentIff(addresses, e, Used(addresses));
      } else {
        EveryCommandSettles(connection, addresses, next, rest, k - 1);
        assert ActiveUpTo(events, k) <==> ActiveUpTo(rest, k - 1);
      }
    }
  }

  // ---------------------------------------------------------------- the datagram

  function ReadPayload(b: seq<Byte>): Option<CommandWords> {
    if |b| != 28 || Word(b, 0) != COMMAND_SIGNATURE then None
    else Some(CommandWords(Word(b, 4), Word(b, 8), Word(b, 12), Word(b, 16), Word(b, 20), Word(b, 24)))
  }

  lemma {:induction false} TruncatedIff(w: CommandWords)
    ensures Truncated(w) == w <==> AllU32(w)
  {
  }

  /** The other side reads the command as it was queued exactly when every field fits an unsigned word. */
  lemma {:induction false} PayloadReadsBackIff(c: Command)
    ensures ReadPayload(Payload(c)) == Some(WordsOf(c)) <==> AllU32(WordsOf(c))
  {
    PayloadReads(Truncated(WordsOf(c)));
    TruncatedIff(WordsOf(c));
  }

  lemma {:induction false} PayloadReads(w: CommandWords)
    requires AllU32(w)
    ensures ReadPayload(PayloadOf(w)) == Some(w)
  {
    var b := PayloadOf(w);
    assert At(b, 0, LE32(COMMAND_SIGNATURE)) && At(b, 4, LE32(w.objAddr)) && At(b, 8, LE32(w.asdu))
           && At(b, 12, LE32(w.value));
    assert At(b, 16, LE32(w.useSBO)) && At(b, 20, LE32(w.duration)) && At(b, 24, LE32(w.commonAddress));
    WordAt(b, 0, COMMAND_SIGNATURE);
    WordAt(b, 4, w.objAddr);
    WordAt(b, 8, w.asdu);
    WordAt(b, 12, w.value);
    WordAt(b, 16, w.useSBO);
    WordAt(b, 20, w.duration);
    WordAt(b, 24, w.commonAddress);
  }

  // ---------------------------------------------------------------- the constants of a command

  /** An address is of no use when it holds nothing but blanks, tabs and line ends. */
  lemma {:induction false} BlankIff(s: string)
    ensures Blank(s) <==> forall c :: c in s
                            ==> c == ' ' || c == '\t' || c == '\n' || c == '\U{0B}' || c == '\U{0C}' || c == '\r'
  {
    if Blank(s) {
      forall c | c in s
        ensures IsSpace(c)
      {
        var i :| 0 <= i < |s| && s[i] == c;
      }
    } else {
      var i :| 0 <= i < |s| && !IsSpace(s[i]);
      assert s[i] in s;
    }
  }

  /**
   What is taken and where: with two or more addresses the first two are tried, each gets its own datagram, and
   no other does.
   */
  lemma {:induction false} FirstTwoAreTried(addresses: seq<string>, e: Event)
    requires |addresses| >= 2
    ensures Sent(addresses, e, Used(addresses))
            == (if !Blank(addresses[0])
                && e.first == Accepts then [Datagram(e.cmd.id, addresses[0], Payload(e.cmd))] else [])
               + (if !Blank(addresses[1])
                  && e.second == Accepts then [Datagram(e.cmd.id, addresses[1], Payload(e.cmd))] else [])
  {
    assert Used(addresses) == 2;
    assert Sent(addresses, e, 0) == []
           && Sent(addresses, e, 1) == Sent(addresses, e, 0) + (if Try(addresses, e, 0) == Success
      then [Datagram(e.cmd.id, addresses[0], Payload(e.cmd))] else []);
  }

  lemma {:induction false} OnlyOneIsTried(addresses: seq<string>, e: Event)
    requires |addresses| == 1
    ensures Sent(addresses, e, Used(addresses))
            == if !Blank(addresses[0])
              && e.first == Accepts then [Datagram(e.cmd.id, addresses[0], Payload(e.cmd))] else []
    ensures Sent([], e, Used([])) == []
  {
    assert Sent(addresses, e, 0) == [];
  }

  /** A command that no address takes says why, by the last address tried. */
  lemma {:induction false} ReasonOfFailure(addresses: seq<string>, e: Event)
    requires Sent(addresses, e, Used(addresses)) == []
    ensures addresses == [] ==> LastError(addresses, e, Used(addresses)) == ""
    ensures addresses != [] ==>
              var reply, last := if |addresses| == 1 then e.first else e.second, if |addresses| == 1 then 0 else 1;
              LastError(addresses, e, Used(addresses))
              == if Blank(addresses[last]) then "no IP destination"
                 else if reply == Unresolved then "IP address error" else "UDP send error"
  {
    SentIff(addresses, e, Used(addresses));
  }

  /** Ten seconds after its time a command is expired. */
  lemma {:induction false} ExpiredIff(connection: int, addresses: seq<string>, s: State, e: Event)
    requires Mine(connection, e)
    ensures e.ageMs > 10000 ==> Handle(connection, addresses, s, e)
                                == State(s.docs[e.cmd.id := DocOf(s.docs, e.cmd.id).(cancelReason := Some("expired"))],
                                         s.datagrams)
    ensures e.ageMs <= 10000 ==> Handle(connection, addresses, s, e).datagrams
                                 == s.datagrams + Sent(addresses, e, Used(addresses))
  {
  }

  /** Other events, other connections and documents that cannot be read change nothing. */
  lemma {:induction false} ForeignEventIsIgnored(connection: int, addresses: seq<string>, s: State, e: Event)
    requires !e.decoded || !e.insert || e.cmd.connection != connection
    ensures Handle(connection, addresses, s, e) == s
  {
  }

  /** The 28 bytes word by word: mark, address, type, value, select-before-operate, qualifier and common address. */
  lemma {:induction false} PayloadWordByWord(c: Command)
    ensures var b := Payload(c);
            && |b| == 28 && b[0] == b[1] == b[2] == b[3] == 0x4b
            && Word(b, 4) == c.objAddr % 4294967296 && Word(b, 8) == c.asdu % 4294967296
               && Word(b, 12) == c.value % 4294967296
            && Word(b, 16) == (if c.useSBO then 1 else 0)
            && Word(b, 20) == c.duration % 4294967296 && Word(b, 24) == c.commonAddress % 4294967296
  {
    var w := Truncated(WordsOf(c));
    PayloadReads(w);
    MarkFirst(w);
  }

  lemma {:induction false} MarkFirst(w: CommandWords)
    requires AllU32(w)
    ensures PayloadOf(w)[..4] == [0x4b, 0x4b, 0x4b, 0x4b]
  {
    SameOctets(0x4b, COMMAND_SIGNATURE);
  }
}
