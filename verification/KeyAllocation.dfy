/**
 Automatic keys of self-published tags in the OPC-UA client
 (ProcessMongo, src/OPC-UA-Client/MongoUpdate.cs:96-176, and newRealtimeDoc, src/OPC-UA-Client/TagsCreation.cs:293-369).
 */
module KeyAllocation {
  const AUTO_KEY_MULTIPLIER: int := 1000000

  datatype Origin = Command | Supervised

  /** A received value; `tooBig` says that its update would pass the size limit of the database. */
  datatype OpcValue = OpcValue(connNumber: int, address: string, selfPublish: bool,
                               createCommandForMethod: bool, createCommandForSupervised: bool, tooBig: bool)

  /** The identity and link fields of a realtimeData document. */
  datatype RtDoc = RtDoc(id: int, origin: Origin, connNumber: int, address: string, supervisedOfCommand: int,
                         commandOfSupervised: int)

  datatype Write = Insert(doc: RtDoc) | Update(connNumber: int, address: string)

  datatype Conn = Conn(number: int, commandsEnabled: bool, lastNewKeyCreated: int, insertedAddresses: set<string>)

  /** 32-bit wrap-around of a C# `int` product. */
  function Int32(x: int): int {
    (x + 0x8000_0000) % 0x1_0000_0000 - 0x8000_0000
  }

  function AutoKeyId(connNumber: int): int {
    Int32(connNumber * AUTO_KEY_MULTIPLIER)
  }

  function NewRealtimeDoc(ov: OpcValue, id: int, commandOfSupervised: int): RtDoc {
    if ov.createCommandForMethod || ov.createCommandForSupervised
    then RtDoc(id, Command, ov.connNumber, ov.address, if ov.createCommandForSupervised then id + 1 else 0, 0)
    else RtDoc(id, Supervised, ov.connNumber, ov.address, 0, commandOfSupervised)
  }

  lemma {:induction false} HighestExists(s: set<int>)
    requires s != {}
    ensures exists m :: m in s && forall y :: y in s ==> y <= m
  {
    assert (forall x :: x !in s) ==> s == {};
    var x :| x in s;
    var rest := s - {x};
    if rest == {} {
      assert s == {x};
      assert forall y :: y in s ==> y <= x;
    } else {
      HighestExists(rest);
      var m :| m in rest && forall y :: y in rest ==> y <= m;
      var h := if m < x then x else m;
      assert h in s && forall y :: y in s ==> y == x || y in rest;
    }
  }

  function Highest(s: set<int>): (m: int)
    requires s != {}
    ensures m in s && forall y :: y in s ==> y <= m
  {
    HighestExists(s);
    var m :| m in s && forall y :: y in s ==> y <= m;
    m
  }

  /** The stored keys found by the query for a connection. */
  function KeysInRange(store: set<int>, connNumber: int): set<int> {
    set k | k in store && AutoKeyId(connNumber) < k < AutoKeyId(connNumber + 1)
  }

  /** The first key a connection uses: one above the highest stored in its range, or the base of the range. */
  function FirstKey(store: set<int>, connNumber: int): int {
    var keys := KeysInRange(store, connNumber);
    if keys == {} then AutoKeyId(connNumber) else Highest(keys) + 1
  }

  /** The connection whose number matches, or the first one. */
  function ConnIndex(conns: seq<Conn>, number: int): (i: nat)
    requires conns != []
    ensures i < |conns|
    ensures (exists j :: 0 <= j < |conns| && conns[j].number == number) ==> conns[i].number == number
    decreases |conns|
  {
    if conns[0].number == number || |conns| == 1 then 0
    else
      var i := ConnIndex(conns[1..], number);
      if conns[1..][i].number == number then i + 1 else 0
  }

  function NextKey(store: set<int>, c: Conn, connNumber: int): int {
    if c.lastNewKeyCreated == 0 then FirstKey(store, connNumber) else c.lastNewKeyCreated + 1
  }

  /** The documents inserted for a value of a new address. */
  function NewDocs(c: Conn, ov: OpcValue, key: int): seq<RtDoc> {
    if c.commandsEnabled && ov.createCommandForSupervised
    then [NewRealtimeDoc(ov, key, 0), NewRealtimeDoc(ov.(createCommandForSupervised := false), key + 1, key)]
    else [NewRealtimeDoc(ov.(createCommandForSupervised := false), key, 0)]
  }

  /** What one value does to its connection, and the documents it inserts. */
  function Publish(store: set<int>, c: Conn, ov: OpcValue): (Conn, seq<RtDoc>) {
    if !ov.selfPublish || ov.address in c.insertedAddresses then (c, [])
    else
      var key := NextKey(store, c, ov.connNumber);
      var docs := NewDocs(c, ov, key);
      (c.(lastNewKeyCreated := key + |docs| - 1, insertedAddresses := c.insertedAddresses + {ov.address}), docs)
  }

  function Inserts(docs: seq<RtDoc>): (ws: seq<Write>)
    ensures |ws| == |docs|
  {
    seq(|docs|, i requires 0 <= i < |docs| => Insert(docs[i]))
  }

  function UpdateOf(ov: OpcValue): seq<Write> {
    if ov.tooBig then [] else [Update(ov.connNumber, ov.address)]
  }

  datatype Published = Published(conns: seq<Conn>, writes: seq<Write>)

  /** What one value does to the connections and to the list of writes. */
  function PublishNext(store: set<int>, s: Published, ov: OpcValue): Published
    requires s.conns != []
  {
    var i := ConnIndex(s.conns, ov.connNumber);
    var p := Publish(store, s.conns[i], ov);
    Published(s.conns[i := p.0], s.writes + (Inserts(p.1) + UpdateOf(ov)))
  }

  /** What a queue of values does to them. */
  function PublishAll(store: set<int>, s: Published, queue: seq<OpcValue>): (t: Published)
    requires s.conns != []
    ensures |t.conns| == |s.conns|
    decreases |queue|
  {
    if queue == [] then s else PublishNext(store, PublishAll(store, s, queue[..|queue| - 1]), queue[|queue| - 1])
  }

  lemma {:induction false} PublishOneMore(store: set<int>, s: Published, queue: seq<OpcValue>, k: nat)
    requires s.conns != [] && k < |queue|
    ensures PublishAll(store, s, queue[..k + 1]) == PublishNext(store, PublishAll(store, s, queue[..k]), queue[k])
  {
    assert queue[..k + 1][..k] == queue[..k];
  }

  // ---------------------------------------------------------------- the program

  class OpcUaClient {
    var conns: seq<Conn>
    var opcDataQueue: seq<OpcValue>
    var listWrites: seq<Write>

    constructor (conns: seq<Conn>)
      ensures this.conns == conns && opcDataQueue == [] && listWrites == []
    {
      this.conns := conns;
      opcDataQueue, listWrites := [], [];
    }

    function State(): Published
      reads this
    {
      Published(conns, listWrites)
    }

    /**
     One pass of the dequeue loop.  It stops early when the list of writes has grown to its limit, or when
     the clock has run out after a number of values.
     */
    method DequeueLoop(store: set<int>, bulkWriteLimit: nat, timeUp: nat -> bool) returns (taken: nat)
      requires conns != []
      modifies this
      ensures taken <= |old(opcDataQueue)| && opcDataQueue == old(opcDataQueue)[taken..]
      ensures State() == PublishAll(store, old(State()), old(opcDataQueue)[..taken])
      ensures opcDataQueue == [] || |listWrites| >= bulkWriteLimit || timeUp(taken)
    {
      taken := 0;
      ghost var values, start := opcDataQueue, State();
      while opcDataQueue != []
        invariant taken <= |values| && opcDataQueue == values[taken..]
        invariant conns != [] && State() == PublishAll(store, start, values[..taken])
        decreases |opcDataQueue|
      {
        var ov := opcDataQueue[0];
        PublishOneMore(store, start, values, taken);
        opcDataQueue := opcDataQueue[1..];
        taken := taken + 1;
        PublishValue(store, ov);
        if |listWrites| >= bulkWriteLimit || timeUp(taken) {
          break;
        }
      }
    }

    method PublishValue(store: set<int>, ov: OpcValue)
      requires conns != []
      modifies this`conns, this`listWrites
      ensures State() == PublishNext(store, old(State()), ov) && |conns| == |old(conns)|
    {
      var connIndex := ConnIndex(conns, ov.connNumber);
      var docs := PublishOne(store, connIndex, ov);
      listWrites := listWrites + Inserts(docs);
      if !ov.tooBig {
        listWrites := listWrites + [Update(ov.connNumber, ov.address)];
      }
    }

    method PublishOne(store: set<int>, connIndex: nat, ov: OpcValue) returns (docs: seq<RtDoc>)
      requires connIndex < |conns|
      modifies this`conns
      ensures var p := Publish(store, old(conns)[connIndex], ov);
              conns == old(conns)[connIndex := p.0] && docs == p.1
    {
      docs := [];
      var c := conns[connIndex];
      if !ov.selfPublish || ov.address in c.insertedAddresses {
        return;
      }
      var last := c.lastNewKeyCreated;
      if last == 0 {
        var found := KeysInRange(store, ov.connNumber);
        if found != {} {
          last := Highest(found) + 1;
        } else {
          last := AutoKeyId(ov.connNumber);
        }
      } else {
        last := last + 1;
      }
      var commandOfSupervised := 0;
      if c.commandsEnabled && ov.createCommandForSupervised {
        docs := docs + [NewRealtimeDoc(ov, last, commandOfSupervised)];
        commandOfSupervised := last;
        last := last + 1;
      }
      docs := docs + [NewRealtimeDoc(ov.(createCommandForSupervised := false), last, commandOfSupervised)];
      c := c.(lastNewKeyCreated := last, insertedAddresses := c.insertedAddresses + {ov.address});
      conns := conns[connIndex := c];
    }
  }

  // ---------------------------------------------------------------- ranges and first keys

  predicate ValidNumber(n: int) {
    1 <= n <= 2146
  }

  /** In the supported numbers nothing wraps and each connection has a million keys of its own. */
  lemma {:induction false} RangesAreDisjoint(m: int, n: int, k: int)
    requires ValidNumber(m) && ValidNumber(n)
    ensures AutoKeyId(m) == m * AUTO_KEY_MULTIPLIER && AutoKeyId(m + 1) == AutoKeyId(m) + AUTO_KEY_MULTIPLIER
    ensures m != n && AutoKeyId(m) <= k < AutoKeyId(m + 1) ==> !(AutoKeyId(n) <= k < AutoKeyId(n + 1))
  {
  }

  /** The two ends of a range are as intended exactly for these numbers. */
  lemma {:induction false} RangeIsWholeIff(n: int)
    ensures (AutoKeyId(n) == n * AUTO_KEY_MULTIPLIER && AutoKeyId(n + 1) == (n + 1) * AUTO_KEY_MULTIPLIER)
            <==> -2147 <= n <= 2146
  {
    FitsIff(n * AUTO_KEY_MULTIPLIER);
    FitsIff((n + 1) * AUTO_KEY_MULTIPLIER);
  }

  lemma {:induction false} FitsIff(x: int)
    ensures Int32(x) == x <==> -0x8000_0000 <= x < 0x8000_0000
  {
  }

  /**
   Whenever the end of a range wraps below its base, the query finds nothing and the base is used, whatever is
   stored.
   */
  lemma {:induction false} WrappedRangeReusesBase(store: set<int>, n: int)
    ensures AutoKeyId(n + 1) != AutoKeyId(n) + AUTO_KEY_MULTIPLIER
            ==> KeysInRange(store, n) == {} && FirstKey(store, n) == AutoKeyId(n)
  {
    WrapsOnce(n * AUTO_KEY_MULTIPLIER, AUTO_KEY_MULTIPLIER);
    assert (n + 1) * AUTO_KEY_MULTIPLIER == n * AUTO_KEY_MULTIPLIER + AUTO_KEY_MULTIPLIER;
  }

  lemma {:induction false} WrapsOnce(x: int, d: int)
    requires 0 < d < 0x8000_0000
    ensures Int32(x + d) == Int32(x) + d || Int32(x + d) < Int32(x)
  {
  }

  /** Among positive numbers, 2147 is the first for which this happens. */
  lemma {:induction false} FirstWrappingNumber(n: int)
    requires n >= 0
    ensures n < 2147 ==> AutoKeyId(n + 1) == AutoKeyId(n) + AUTO_KEY_MULTIPLIER
    ensures AutoKeyId(2148) != AutoKeyId(2147) + AUTO_KEY_MULTIPLIER
  {
    if n < 2147 {
      RangeIsWholeIff(n);
    }
  }

  /**
   The first key of a connection is new exactly when no document sits at the base alone and the range is not
   full to its end.
   */
  lemma {:induction false} FirstKeyIsFreshIff(store: set<int>, n: int)
    requires ValidNumber(n)
    ensures var keys := KeysInRange(store, n);
            FirstKey(store, n) !in store
            <==> (if keys == {} then AutoKeyId(n) !in store
                  else AutoKeyId(n + 1) - 1 in keys ==> AutoKeyId(n + 1) !in store)
    ensures AutoKeyId(n) <= FirstKey(store, n) <= AutoKeyId(n + 1)
  {
    RangesAreDisjoint(n, n, 0);
    var keys := KeysInRange(store, n);
    if keys != {} {
      var h := Highest(keys);
      assert h in keys;
      assert h + 1 in store && h + 1 < AutoKeyId(n + 1) ==> h + 1 in keys;
    }
  }

  // ---------------------------------------------------------------- runs of the client

  /** `inserts` is the history of all documents handed to the database, in order. */
  datatype Client = Client(store: set<int>, conns: seq<Conn>, inserts: seq<RtDoc>)

  /** A value is processed, or some of the queued documents reach the database. */
  datatype Step = Take(ov: OpcValue) | Flush(n: nat)

  function IdsOf(docs: seq<RtDoc>): set<int> {
    set d | d in docs :: d.id
  }

  function Next(s: Client, step: Step): Client
    requires s.conns != []
    ensures |Next(s, step).conns| == |s.conns|
  {
    match step
    case Take(ov) =>
      var i := ConnIndex(s.conns, ov.connNumber);
      var p := Publish(s.store, s.conns[i], ov);
      Client(s.store, s.conns[i := p.0], s.inserts + p.1)
    case Flush(n) => if n <= |s.inserts| then s.(store := s.store + IdsOf(s.inserts[..n])) else s
  }

  function Run(s: Client, steps: seq<Step>): (t: Client)
    requires s.conns != []
    ensures |t.conns| == |s.conns|
    decreases |steps|
  {
    if steps == [] then s else Next(Run(s, steps[..|steps| - 1]), steps[|steps| - 1])
  }

  predicate DistinctConns(conns: seq<Conn>) {
    && conns != []
    && (forall i :: 0 <= i < |conns| ==> ValidNumber(conns[i].number))
    && (forall i, j :: 0 <= i < j < |conns| ==> conns[i].number != conns[j].number)
  }

  function Numbers(conns: seq<Conn>): set<int> {
    set i | 0 <= i < |conns| :: conns[i].number
  }

  predicate Initial(s: Client) {
    && DistinctConns(s.conns) && s.inserts == []
    && forall i :: 0 <= i < |s.conns| ==> s.conns[i].lastNewKeyCreated == 0
  }

  /** Every value taken belongs to one of the connections. */
  predicate Addressed(conns: seq<Conn>, steps: seq<Step>) {
    forall k :: 0 <= k < |steps| && steps[k].Take? ==> steps[k].ov.connNumber in Numbers(conns)
  }

  /** No connection has used up its million keys. */
  predicate Bounded(conns: seq<Conn>) {
    forall i :: 0 <= i < |conns| ==> conns[i].lastNewKeyCreated < AutoKeyId(conns[i].number + 1)
  }

  /** The keys of one connection so far, against the store before the run. */
  predicate Allocated(store0: set<int>, c: Conn, inserts: seq<RtDoc>) {
    && (c.lastNewKeyCreated == 0 ==> forall p :: 0 <= p < |inserts| ==> inserts[p].connNumber != c.number)
    && (c.lastNewKeyCreated != 0 ==> FirstKey(store0, c.number) <= c.lastNewKeyCreated)
    && (forall p :: 0 <= p < |inserts| && inserts[p].connNumber == c.number
          ==> FirstKey(store0, c.number) <= inserts[p].id <= c.lastNewKeyCreated)
    && (forall p, q :: 0 <= p < q < |inserts| && inserts[p].connNumber == c.number && inserts[q].connNumber == c.number
          ==> inserts[p].id < inserts[q].id)
  }

  predicate AllAllocated(store0: set<int>, conns: seq<Conn>, inserts: seq<RtDoc>) {
    forall i :: 0 <= i < |conns| ==> Allocated(store0, conns[i], inserts)
  }

  predicate AllBelong(conns: seq<Conn>, inserts: seq<RtDoc>) {
    forall p :: 0 <= p < |inserts| ==> inserts[p].connNumber in Numbers(conns)
  }

  predicate Inv(store0: set<int>, s: Client) {
    && DistinctConns(s.conns)
    && store0 <= s.store && s.store <= store0 + IdsOf(s.inserts)
    && AllAllocated(store0, s.conns, s.inserts)
    && AllBelong(s.conns, s.inserts)
  }

  lemma {:induction false} NewDocsFacts(c: Conn, ov: OpcValue, key: int)
    ensures var docs := NewDocs(c, ov, key);
            && 1 <= |docs| <= 2
            && forall k :: 0 <= k < |docs|
                 ==> docs[k].id == key + k && docs[k].connNumber == ov.connNumber && docs[k].address == ov.address
  {
  }

  lemma {:induction false} KeyOfConn(store0: set<int>, c: Conn, inserts: seq<RtDoc>, p: nat)
    requires Allocated(store0, c, inserts) && ValidNumber(c.number) && c.lastNewKeyCreated < AutoKeyId(c.number + 1)
    requires p < |inserts| && inserts[p].connNumber == c.number
    ensures c.lastNewKeyCreated != 0
    ensures AutoKeyId(c.number) <= FirstKey(store0, c.number) <= inserts[p].id < AutoKeyId(c.number + 1)
    ensures forall q :: p < q < |inserts| && inserts[q].connNumber == c.number ==> inserts[p].id < inserts[q].id
  {
    FirstKeyIsFreshIff(store0, c.number);
  }

  lemma {:induction false} OwnerOf(store0: set<int>, s: Client, p: nat) returns (i: nat)
    requires Inv(store0, s) && Bounded(s.conns) && p < |s.inserts|
    ensures i < |s.conns| && s.conns[i].number == s.inserts[p].connNumber && Allocated(store0, s.conns[i], s.inserts)
    ensures ValidNumber(s.conns[i].number) && s.conns[i].lastNewKeyCreated < AutoKeyId(s.conns[i].number + 1)
  {
    assert s.inserts[p].connNumber in Numbers(s.conns);
    i :| 0 <= i < |s.conns| && s.conns[i].number == s.inserts[p].connNumber;
  }

  /** Every key handed out so far lies in the range of its connection. */
  lemma {:induction false} KeyInOwnRange(store0: set<int>, s: Client, p: nat)
    requires Inv(store0, s) && Bounded(s.conns) && p < |s.inserts|
    ensures var d := s.inserts[p];
            && ValidNumber(d.connNumber)
            && AutoKeyId(d.connNumber) <= FirstKey(store0, d.connNumber) <= d.id < AutoKeyId(d.connNumber + 1)
    ensures forall q :: p < q < |s.inserts| && s.inserts[q].connNumber == s.inserts[p].connNumber
              ==> s.inserts[p].id < s.inserts[q].id
  {
    var i := OwnerOf(store0, s, p);
    KeyOfConn(store0, s.conns[i], s.inserts, p);
  }

  /** Keys written by other connections are outside this connection's range. */
  lemma {:induction false} KeyInForeignRange(store0: set<int>, s: Client, i: nat, p: nat)
    requires Inv(store0, s) && Bounded(s.conns) && i < |s.conns| && s.conns[i].lastNewKeyCreated == 0 && p < |s.inserts|
    ensures !(AutoKeyId(s.conns[i].number) <= s.inserts[p].id < AutoKeyId(s.conns[i].number + 1))
  {
    assert Allocated(store0, s.conns[i], s.inserts);
    KeyInOwnRange(store0, s, p);
    RangesAreDisjoint(s.inserts[p].connNumber, s.conns[i].number, s.inserts[p].id);
  }

  /** So the first key of a connection does not depend on what the others have written. */
  lemma {:induction false} FirstKeyUnaffected(store0: set<int>, s: Client, i: nat)
    requires Inv(store0, s) && Bounded(s.conns) && i < |s.conns| && s.conns[i].lastNewKeyCreated == 0
    ensures FirstKey(s.store, s.conns[i].number) == FirstKey(store0, s.conns[i].number)
  {
    var n := s.conns[i].number;
    forall p: nat | p < |s.inserts|
      ensures !(AutoKeyId(n) <= s.inserts[p].id < AutoKeyId(n + 1))
    {
      KeyInForeignRange(store0, s, i, p);
    }
    SameKeysInRange(store0, s.store, s.inserts, n);
  }

  lemma {:induction false} SameKeysInRange(store0: set<int>, store: set<int>, inserts: seq<RtDoc>, n: int)
    requires store0 <= store <= store0 + IdsOf(inserts)
    requires forall p :: 0 <= p < |inserts| ==> !(AutoKeyId(n) <= inserts[p].id < AutoKeyId(n + 1))
    ensures KeysInRange(store, n) == KeysInRange(store0, n)
  {
    forall k | k in KeysInRange(store, n)
      ensures k in store0
    {
      assert k in IdsOf(inserts) ==> exists d :: d in inserts && d.id == k;
    }
  }

  lemma {:induction false} TakeKeepsAllocated(store0: set<int>, c: Conn, d: Conn, inserts: seq<RtDoc>, docs: seq<RtDoc>,
                                              key: int)
    requires Allocated(store0, c, inserts) && d.number == c.number
    requires |docs| >= 1 && forall k :: 0 <= k < |docs| ==> docs[k].id == key + k && docs[k].connNumber == c.number
    requires key == if c.lastNewKeyCreated == 0 then FirstKey(store0, c.number) else c.lastNewKeyCreated + 1
    requires key > 0 && d.lastNewKeyCreated == key + |docs| - 1
    ensures Allocated(store0, d, inserts + docs)
  {
    var all := inserts + docs;
    forall p | 0 <= p < |all| && all[p].connNumber == c.number
      ensures FirstKey(store0, c.number) <= all[p].id <= d.lastNewKeyCreated
      ensures p < |inserts| ==> all[p].id < key
    {
      if p >= |inserts| {
        assert all[p] == docs[p - |inserts|];
      }
    }
  }

  lemma {:induction false} ConnOf(conns: seq<Conn>, number: int)
    requires conns != [] && number in Numbers(conns)
    ensures conns[ConnIndex(conns, number)].number == number
  {
    var i :| 0 <= i < |conns| && conns[i].number == number;
  }

  lemma {:induction false} SameNumbers(conns: seq<Conn>, after: seq<Conn>)
    requires |after| == |conns| && forall i :: 0 <= i < |conns| ==> after[i].number == conns[i].number
    ensures Numbers(after) == Numbers(conns)
  {
    forall n | n in Numbers(conns)
      ensures n in Numbers(after)
    {
      var i :| 0 <= i < |conns| && conns[i].number == n;
      assert after[i].number == n;
    }
    forall n | n in Numbers(after)
      ensures n in Numbers(conns)
    {
      var i :| 0 <= i < |after| && after[i].number == n;
      assert conns[i].number == n;
    }
  }

  lemma {:induction false} FlushKeepsInv(store0: set<int>, s: Client, n: nat)
    requires Inv(store0, s) && n <= |s.inserts|
    ensures Inv(store0, Next(s, Flush(n)))
  {
    assert forall d :: d in s.inserts[..n] ==> d in s.inserts;
    assert IdsOf(s.inserts[..n]) <= IdsOf(s.inserts);
  }

  lemma {:induction false} KeyForNew(store0: set<int>, s: Client, i: nat)
    requires Inv(store0, s) && Bounded(s.conns) && i < |s.conns|
    ensures var c := s.conns[i];
            && Allocated(store0, c, s.inserts) && NextKey(s.store, c, c.number) > 0
            && NextKey(s.store, c, c.number) == if c.lastNewKeyCreated == 0 then FirstKey(store0, c.number)
                                                else c.lastNewKeyCreated + 1
  {
    var c := s.conns[i];
    assert Allocated(store0, c, s.inserts);
    FirstKeyIsFreshIff(store0, c.number);
    RangesAreDisjoint(c.number, c.number, 0);
    if c.lastNewKeyCreated == 0 {
      FirstKeyUnaffected(store0, s, i);
    }
  }

  /** New documents of one connection, and its counters, put into a state. */
  lemma {:induction false} InsertKeepsInv(store0: set<int>, s: Client, i: nat, d: Conn, docs: seq<RtDoc>)
    requires Inv(store0, s) && i < |s.conns| && d.number == s.conns[i].number
    requires Allocated(store0, d, s.inserts + docs) && forall k :: 0 <= k < |docs| ==> docs[k].connNumber == d.number
    ensures Inv(store0, Client(s.store, s.conns[i := d], s.inserts + docs))
  {
    OthersKeepAllocated(store0, s.conns, i, d, s.inserts, docs);
    IdsGrow(s.inserts, docs);
    NewBelong(s.conns, i, d, s.inserts, docs);
    StaysDistinct(s.conns, i, d);
  }

  lemma {:induction false} StaysDistinct(conns: seq<Conn>, i: nat, d: Conn)
    requires DistinctConns(conns) && i < |conns| && d.number == conns[i].number
    ensures DistinctConns(conns[i := d])
  {
    assert forall j :: 0 <= j < |conns| ==> conns[i := d][j].number == conns[j].number;
  }

  lemma {:induction false} NewBelong(conns: seq<Conn>, i: nat, d: Conn, inserts: seq<RtDoc>, docs: seq<RtDoc>)
    requires i < |conns| && d.number == conns[i].number && AllBelong(conns, inserts)
    requires forall k :: 0 <= k < |docs| ==> docs[k].connNumber == d.number
    ensures AllBelong(conns[i := d], inserts + docs)
  {
    assert conns[i].number in Numbers(conns);
    SameNumbers(conns, conns[i := d]);
  }

  lemma {:induction false} TakeKeepsInv(store0: set<int>, s: Client, ov: OpcValue)
    requires Inv(store0, s) && Bounded(s.conns) && ov.connNumber in Numbers(s.conns)
    ensures Inv(store0, Next(s, Take(ov)))
  {
    var i, t := ConnIndex(s.conns, ov.connNumber), Next(s, Take(ov));
    ConnOf(s.conns, ov.connNumber);
    var c := s.conns[i];
    if ov.selfPublish && ov.address !in c.insertedAddresses {
      var key := NextKey(s.store, c, ov.connNumber);
      var docs := NewDocs(c, ov, key);
      NewDocsFacts(c, ov, key);
      KeyForNew(store0, s, i);
      TakeKeepsAllocated(store0, c, t.conns[i], s.inserts, docs, key);
      InsertKeepsInv(store0, s, i, t.conns[i], docs);
    } else {
      assert t == s;
    }
  }

  lemma {:induction false} IdsGrow(inserts: seq<RtDoc>, docs: seq<RtDoc>)
    ensures IdsOf(inserts) <= IdsOf(inserts + docs)
  {
    assert forall d :: d in inserts ==> d in inserts + docs;
  }

  lemma {:induction false} StepKeepsInv(store0: set<int>, s: Client, step: Step)
    requires Inv(store0, s) && Bounded(s.conns) && (step.Take? ==> step.ov.connNumber in Numbers(s.conns))
    ensures Inv(store0, Next(s, step))
  {
    match step
    case Flush(n) =>
      if n <= |s.inserts| {
        FlushKeepsInv(store0, s, n);
      }
    case Take(ov) => TakeKeepsInv(store0, s, ov);
  }

  lemma {:induction false} OthersKeepAllocated(store0: set<int>, conns: seq<Conn>, i: nat, d: Conn, inserts: seq<RtDoc>,
                                               docs: seq<RtDoc>)
    requires i < |conns| && DistinctConns(conns) && d.number == conns[i].number
    requires AllAllocated(store0, conns, inserts) && Allocated(store0, d, inserts + docs)
    requires forall k :: 0 <= k < |docs| ==> docs[k].connNumber == d.number
    ensures AllAllocated(store0, conns[i := d], inserts + docs)
  {
    forall j | 0 <= j < |conns| && j != i
      ensures Allocated(store0, conns[j], inserts + docs)
    {
      assert Allocated(store0, conns[j], inserts);
      assert conns[j].number != d.number;
    }
  }

  lemma {:induction false} StepKeepsNumbers(s: Client, step: Step)
    requires DistinctConns(s.conns) && (step.Take? ==> step.ov.connNumber in Numbers(s.conns))
    requires forall i :: 0 <= i < |s.conns| ==> s.conns[i].lastNewKeyCreated >= 0
    ensures var t := Next(s, step);
            && (forall i :: 0 <= i < |s.conns| ==> t.conns[i].number == s.conns[i].number)
            && (forall i :: 0 <= i < |s.conns| ==> t.conns[i].lastNewKeyCreated >= s.conns[i].lastNewKeyCreated)
  {
    if step.Take? {
      ConnOf(s.conns, step.ov.connNumber);
      FirstKeyIsFreshIff(s.store, step.ov.connNumber);
      RangesAreDisjoint(step.ov.connNumber, step.ov.connNumber, 0);
    }
  }

  lemma {:induction false} RunKeepsNumbers(s: Client, steps: seq<Step>)
    requires Initial(s) && Addressed(s.conns, steps)
    ensures var t := Run(s, steps);
            && Numbers(t.conns) == Numbers(s.conns) && DistinctConns(t.conns)
            && forall i :: 0 <= i < |t.conns| ==> t.conns[i].lastNewKeyCreated >= 0
    decreases |steps|
  {
    if steps != [] {
      var t, last := Run(s, steps[..|steps| - 1]), steps[|steps| - 1];
      RunKeepsNumbers(s, steps[..|steps| - 1]);
      StepKeepsNumbers(t, last);
      SameNumbers(t.conns, Next(t, last).conns);
    }
  }

  lemma {:induction false} BoundedBefore(s: Client, step: Step)
    requires DistinctConns(s.conns) && (step.Take? ==> step.ov.connNumber in Numbers(s.conns))
    requires forall i :: 0 <= i < |s.conns| ==> s.conns[i].lastNewKeyCreated >= 0
    requires Bounded(Next(s, step).conns)
    ensures Bounded(s.conns)
  {
    StepKeepsNumbers(s, step);
    forall i | 0 <= i < |s.conns|
      ensures s.conns[i].lastNewKeyCreated < AutoKeyId(s.conns[i].number + 1)
    {
      assert Next(s, step).conns[i].number == s.conns[i].number;
    }
  }

  lemma {:induction false} RunKeepsInv(s: Client, steps: seq<Step>)
    requires Initial(s) && Addressed(s.conns, steps)
    requires Bounded(Run(s, steps).conns)
    ensures Inv(s.store, Run(s, steps))
    decreases |steps|
  {
    if steps != [] {
      var t, last := Run(s, steps[..|steps| - 1]), steps[|steps| - 1];
      RunKeepsNumbers(s, steps[..|steps| - 1]);
      BoundedBefore(t, last);
      RunKeepsInv(s, steps[..|steps| - 1]);
      StepKeepsInv(s.store, t, last);
    }
  }

  /**
   The key lies in the range of its connection, and was stored before only as the base of a range without
   higher keys.
   */
  predicate OwnKey(store0: set<int>, d: RtDoc) {
    && ValidNumber(d.connNumber)
    && AutoKeyId(d.connNumber) <= d.id < AutoKeyId(d.connNumber + 1)
    && (d.id in store0 ==> d.id == AutoKeyId(d.connNumber) && KeysInRange(store0, d.connNumber) == {})
  }

  lemma {:induction false} KeyIsOwn(store0: set<int>, s: Client, p: nat)
    requires Inv(store0, s) && Bounded(s.conns) && p < |s.inserts|
    ensures OwnKey(store0, s.inserts[p])
  {
    KeyInOwnRange(store0, s, p);
    HigherThanStored(store0, s.inserts[p].connNumber, s.inserts[p].id);
  }

  /**
   In every run in which no connection uses up its range, all inserted documents have different
   keys, each in the range of its own connection, and a key was stored before the run only if it is
   the base of a range that held no higher key.
   */
  lemma {:induction false} KeysAreDistinctAndFresh(s: Client, steps: seq<Step>)
    requires Initial(s) && Addressed(s.conns, steps) && Bounded(Run(s, steps).conns)
    ensures var docs := Run(s, steps).inserts;
            && (forall p, q :: 0 <= p < q < |docs| ==> docs[p].id != docs[q].id)
            && (forall p :: 0 <= p < |docs| ==> OwnKey(s.store, docs[p]))
  {
    RunKeepsInv(s, steps);
    var t := Run(s, steps);
    var docs := t.inserts;
    forall p: nat | p < |docs|
      ensures OwnKey(s.store, docs[p])
    {
      KeyIsOwn(s.store, t, p);
    }
    forall p: nat, q: nat | p < q < |docs|
      ensures docs[p].id != docs[q].id
    {
      KeysDiffer(s.store, t, p, q);
    }
  }

  lemma {:induction false} KeysDiffer(store0: set<int>, s: Client, p: nat, q: nat)
    requires Inv(store0, s) && Bounded(s.conns) && p < q < |s.inserts|
    ensures s.inserts[p].id != s.inserts[q].id
  {
    KeyInOwnRange(store0, s, p);
    KeyInOwnRange(store0, s, q);
    RangesAreDisjoint(s.inserts[p].connNumber, s.inserts[q].connNumber, s.inserts[p].id);
  }

  lemma {:induction false} HigherThanStored(store: set<int>, n: int, k: int)
    requires FirstKey(store, n) <= k && AutoKeyId(n) <= k < AutoKeyId(n + 1)
    ensures k in store ==> k == AutoKeyId(n) && KeysInRange(store, n) == {}
  {
    var keys := KeysInRange(store, n);
    assert k in store && k > AutoKeyId(n) ==> k in keys;
    if keys != {} {
      assert Highest(keys) in keys && Highest(keys) < k;
    }
  }

  /** A command and a supervised document that name each other. */
  predicate Linked(docs: seq<RtDoc>) {
    exists p, q :: 0 <= p < |docs| && 0 <= q < |docs|
      && docs[p].origin == Command && docs[q].origin == Supervised
      && docs[p].supervisedOfCommand == docs[q].id && docs[q].commandOfSupervised == docs[p].id
  }

  /** A value inserts such a pair exactly when it is writable, commands are enabled and it is not a method. */
  lemma {:induction false} LinkedPairIff(c: Conn, ov: OpcValue, key: int)
    requires key > 0
    ensures Linked(NewDocs(c, ov, key))
            <==> c.commandsEnabled && ov.createCommandForSupervised && !ov.createCommandForMethod
  {
    var docs := NewDocs(c, ov, key);
    if c.commandsEnabled && ov.createCommandForSupervised && !ov.createCommandForMethod {
      assert docs[0].origin == Command && docs[1].origin == Supervised;
    }
  }

  // ---------------------------------------------------------------- the documents of one address in a run

  function AddressesOf(conns: seq<Conn>, n: int): set<string>
    requires conns != []
  {
    conns[ConnIndex(conns, n)].insertedAddresses
  }

  predicate Belongs(d: RtDoc, n: int, address: string) {
    d.connNumber == n && d.address == address
  }

  /** The inserted documents of one address of one connection. */
  function DocsOf(inserts: seq<RtDoc>, n: int, address: string): seq<RtDoc>
    decreases |inserts|
  {
    if inserts == [] then []
    else
      var last := inserts[|inserts| - 1];
      DocsOf(inserts[..|inserts| - 1], n, address) + (if Belongs(last, n, address) then [last] else [])
  }

  lemma {:induction false} DocsOfAppend(a: seq<RtDoc>, b: seq<RtDoc>, n: int, address: string)
    ensures DocsOf(a + b, n, address) == DocsOf(a, n, address) + DocsOf(b, n, address)
    decreases |b|
  {
    if b == [] {
      assert a + b == a;
    } else {
      assert (a + b)[..|a + b| - 1] == a + b[..|b| - 1];
      DocsOfAppend(a, b[..|b| - 1], n, address);
    }
  }

  lemma {:induction false} OnlyDocsOf(docs: seq<RtDoc>, n: int, address: string)
    requires forall k :: 0 <= k < |docs| ==> Belongs(docs[k], n, address)
    ensures DocsOf(docs, n, address) == docs
    decreases |docs|
  {
    if docs != [] {
      OnlyDocsOf(docs[..|docs| - 1], n, address);
      assert docs == docs[..|docs| - 1] + [docs[|docs| - 1]];
    }
  }

  lemma {:induction false} NoDocsOf(inserts: seq<RtDoc>, n: int, address: string)
    requires forall d :: d in inserts ==> !Belongs(d, n, address)
    ensures DocsOf(inserts, n, address) == []
    decreases |inserts|
  {
    if inserts != [] {
      NoDocsOf(inserts[..|inserts| - 1], n, address);
    }
  }

  lemma {:induction false} FirstDocsOf(inserts: seq<RtDoc>, docs: seq<RtDoc>, n: int, address: string)
    requires forall d :: d in inserts ==> !Belongs(d, n, address)
    requires forall k :: 0 <= k < |docs| ==> Belongs(docs[k], n, address)
    ensures DocsOf(inserts + docs, n, address) == docs
  {
    NoDocsOf(inserts, n, address);
    DocsOfAppend(inserts, docs, n, address);
    OnlyDocsOf(docs, n, address);
  }

  /** Every inserted document has its address noted in its connection. */
  predicate Noted(s: Client)
    requires s.conns != []
  {
    forall d :: d in s.inserts ==> d.address in AddressesOf(s.conns, d.connNumber)
  }

  lemma {:induction false} SameIndex(conns: seq<Conn>, after: seq<Conn>, n: int)
    requires conns != [] && |after| == |conns| && forall i :: 0 <= i < |conns| ==> after[i].number == conns[i].number
    ensures ConnIndex(after, n) == ConnIndex(conns, n)
    decreases |conns|
  {
    if |conns| > 1 && conns[0].number != n {
      SameIndex(conns[1..], after[1..], n);
    }
  }

  /** Addresses stay noted, and an address that is noted gets no more documents. */
  lemma {:induction false} StepKeepsNoted(s: Client, step: Step, n: int, address: string)
    requires DistinctConns(s.conns) && Noted(s) && (step.Take? ==> step.ov.connNumber in Numbers(s.conns))
    ensures Noted(Next(s, step))
    ensures address in AddressesOf(s.conns, n) ==> address in AddressesOf(Next(s, step).conns, n)
    ensures address in AddressesOf(s.conns, n)
            ==> DocsOf(Next(s, step).inserts, n, address) == DocsOf(s.inserts, n, address)
  {
    if step.Take? {
      TakeKeepsNoted(s, step.ov, n, address);
    }
  }

  lemma {:induction false} TakeKeepsNoted(s: Client, ov: OpcValue, n: int, address: string)
    requires DistinctConns(s.conns) && Noted(s) && ov.connNumber in Numbers(s.conns)
    ensures var t := Next(s, Take(ov));
            && Noted(t)
            && (address in AddressesOf(s.conns, n) ==> address in AddressesOf(t.conns, n))
            && (address in AddressesOf(s.conns, n) ==> DocsOf(t.inserts, n, address) == DocsOf(s.inserts, n, address))
  {
    var i, t := ConnIndex(s.conns, ov.connNumber), Next(s, Take(ov));
    var c := s.conns[i];
    ConnOf(s.conns, ov.connNumber);
    var docs := Publish(s.store, c, ov).1;
    NewDocsFacts(c, ov, NextKey(s.store, c, ov.connNumber));
    forall m
      ensures ConnIndex(t.conns, m) == ConnIndex(s.conns, m)
    {
      SameIndex(s.conns, t.conns, m);
    }
    assert forall d :: d in docs ==> Belongs(d, ov.connNumber, ov.address);
    forall d | d in t.inserts
      ensures d.address in AddressesOf(t.conns, d.connNumber)
    {
      assert d in s.inserts || d in docs;
    }
    if address in AddressesOf(s.conns, n) {
      assert forall d :: d in docs ==> !Belongs(d, n, address);
      DocsOfAppend(s.inserts, docs, n, address);
      NoDocsOf(docs, n, address);
    }
  }

  lemma {:induction false} RunKeepsNoted(s: Client, steps: seq<Step>, k: nat, n: int, address: string)
    requires Initial(s) && Addressed(s.conns, steps) && k <= |steps|
    ensures Noted(Run(s, steps))
    ensures address in AddressesOf(Run(s, steps[..k]).conns, n)
            ==> DocsOf(Run(s, steps).inserts, n, address) == DocsOf(Run(s, steps[..k]).inserts, n, address)
    ensures address in AddressesOf(Run(s, steps[..k]).conns, n) ==> address in AddressesOf(Run(s, steps).conns, n)
    decreases |steps|
  {
    if steps != [] {
      var front, last := steps[..|steps| - 1], steps[|steps| - 1];
      RunKeepsNumbers(s, front);
      if k == |steps| {
        assert steps[..k] == steps;
        RunKeepsNoted(s, front, |front|, n, address);
      } else {
        assert front[..k] == steps[..k];
        RunKeepsNoted(s, front, k, n, address);
      }
      StepKeepsNoted(Run(s, front), last, n, address);
    }
  }

  lemma {:induction false} PublishingStep(t: Client, ov: OpcValue)
    requires DistinctConns(t.conns) && Noted(t) && ov.connNumber in Numbers(t.conns)
    requires ov.selfPublish && ov.address !in AddressesOf(t.conns, ov.connNumber)
    ensures var c, u := t.conns[ConnIndex(t.conns, ov.connNumber)], Next(t, Take(ov));
            && DocsOf(u.inserts, ov.connNumber, ov.address) == NewDocs(c, ov, NextKey(t.store, c, ov.connNumber))
            && ov.address in AddressesOf(u.conns, ov.connNumber)
  {
    var c, u := t.conns[ConnIndex(t.conns, ov.connNumber)], Next(t, Take(ov));
    var key := NextKey(t.store, c, ov.connNumber);
    ConnOf(t.conns, ov.connNumber);
    NewDocsFacts(c, ov, key);
    FirstDocsOf(t.inserts, NewDocs(c, ov, key), ov.connNumber, ov.address);
    SameIndex(t.conns, u.conns, ov.connNumber);
  }

  lemma {:induction false} NextKeyIsPositive(t: Client, n: int)
    requires DistinctConns(t.conns) && n in Numbers(t.conns)
    requires forall i :: 0 <= i < |t.conns| ==> t.conns[i].lastNewKeyCreated >= 0
    ensures NextKey(t.store, t.conns[ConnIndex(t.conns, n)], n) > 0
  {
    ConnOf(t.conns, n);
    FirstKeyIsFreshIff(t.store, n);
    RangesAreDisjoint(n, n, 0);
  }

  lemma {:induction false} RunOneMore(s: Client, steps: seq<Step>, k: nat)
    requires s.conns != [] && k < |steps|
    ensures Run(s, steps[..k + 1]) == Next(Run(s, steps[..k]), steps[k])
  {
    assert steps[..k + 1][..k] == steps[..k];
  }

  /**
   In every run the documents of an address are those of the first value that publishes it, and they hold a
   linked pair exactly when that value is writable, commands are enabled and it is not a method.
   */
  lemma {:induction false} PublishedOnceAndLinkedIff(s: Client, steps: seq<Step>, k: nat)
    requires Initial(s) && Addressed(s.conns, steps) && k < |steps| && steps[k].Take?
    requires steps[k].ov.selfPublish
             && steps[k].ov.address !in AddressesOf(Run(s, steps[..k]).conns, steps[k].ov.connNumber)
    ensures var t, ov := Run(s, steps[..k]), steps[k].ov;
            var c := t.conns[ConnIndex(t.conns, ov.connNumber)];
            var docs := DocsOf(Run(s, steps).inserts, ov.connNumber, ov.address);
            && docs == NewDocs(c, ov, NextKey(t.store, c, ov.connNumber))
            && (Linked(docs) <==> c.commandsEnabled && ov.createCommandForSupervised && !ov.createCommandForMethod)
  {
    var t, ov := Run(s, steps[..k]), steps[k].ov;
    var c := t.conns[ConnIndex(t.conns, ov.connNumber)];
    RunKeepsNumbers(s, steps[..k]);
    RunKeepsNoted(s, steps[..k], 0, ov.connNumber, ov.address);
    PublishingStep(t, ov);
    RunOneMore(s, steps, k);
    RunKeepsNoted(s, steps, k + 1, ov.connNumber, ov.address);
    NextKeyIsPositive(t, ov.connNumber);
    LinkedPairIff(c, ov, NextKey(t.store, c, ov.connNumber));
  }

  // ---------------------------------------------------------------- the list of writes

  /** The documents of the insert operations among some writes, in order. */
  function InsertedDocs(writes: seq<Write>): seq<RtDoc>
    decreases |writes|
  {
    if writes == [] then []
    else
      InsertedDocs(writes[..|writes| - 1])
      + (if writes[|writes| - 1].Insert? then [writes[|writes| - 1].doc] else [])
  }

  lemma {:induction false} InsertedDocsAppend(a: seq<Write>, b: seq<Write>)
    ensures InsertedDocs(a + b) == InsertedDocs(a) + InsertedDocs(b)
    decreases |b|
  {
    if b == [] {
      assert a + b == a;
    } else {
      assert (a + b)[..|a + b| - 1] == a + b[..|b| - 1];
      InsertedDocsAppend(a, b[..|b| - 1]);
    }
  }

  lemma {:induction false} InsertedDocsOfInserts(docs: seq<RtDoc>)
    ensures InsertedDocs(Inserts(docs)) == docs
    decreases |docs|
  {
    if docs != [] {
      var front := docs[..|docs| - 1];
      assert Inserts(docs)[..|docs| - 1] == Inserts(front);
      InsertedDocsOfInserts(front);
      assert docs == front + [docs[|docs| - 1]];
    }
  }

  lemma {:induction false} Layout(writes: seq<Write>, docs: seq<RtDoc>, more: seq<Write>)
    ensures var all := writes + (Inserts(docs) + more);
            && |all| == |writes| + |docs| + |more| && all[..|writes|] == writes
            && (forall k :: 0 <= k < |docs| ==> all[|writes| + k] == Insert(docs[k]))
            && all[|writes| + |docs|..] == more
  {
  }

  /** What one value adds to the writes: its documents, one insert each, and then its update unless it is too big. */
  lemma {:induction false} WritesOfValue(store: set<int>, s: Published, ov: OpcValue)
    requires s.conns != []
    ensures var t := PublishNext(store, s, ov);
            var docs := Publish(store, s.conns[ConnIndex(s.conns, ov.connNumber)], ov).1;
            && |t.writes| >= |s.writes| + |docs| && t.writes[..|s.writes|] == s.writes
            && (forall k :: 0 <= k < |docs| ==> t.writes[|s.writes| + k] == Insert(docs[k]))
            && t.writes[|s.writes| + |docs|..] == if ov.tooBig then [] else [Update(ov.connNumber, ov.address)]
  {
    Layout(s.writes, Publish(store, s.conns[ConnIndex(s.conns, ov.connNumber)], ov).1, UpdateOf(ov));
  }

  lemma {:induction false} InsertsOfValue(store: set<int>, s: Published, ov: OpcValue)
    requires s.conns != []
    ensures InsertedDocs(PublishNext(store, s, ov).writes)
            == InsertedDocs(s.writes) + Publish(store, s.conns[ConnIndex(s.conns, ov.connNumber)], ov).1
  {
    var docs := Publish(store, s.conns[ConnIndex(s.conns, ov.connNumber)], ov).1;
    InsertedDocsAppend(s.writes, Inserts(docs) + UpdateOf(ov));
    InsertedDocsAppend(Inserts(docs), UpdateOf(ov));
    InsertedDocsOfInserts(docs);
    assert [Update(ov.connNumber, ov.address)][..0] == [];
  }

  /** The run that takes the values of a queue. */
  function Takes(queue: seq<OpcValue>): (steps: seq<Step>)
    ensures |steps| == |queue| && forall k :: 0 <= k < |queue| ==> steps[k] == Take(queue[k])
  {
    seq(|queue|, k requires 0 <= k < |queue| => Take(queue[k]))
  }

  lemma {:induction false} TakesFront(queue: seq<OpcValue>)
    requires queue != []
    ensures Takes(queue)[..|queue| - 1] == Takes(queue[..|queue| - 1])
  {
  }

  /**
   The program inserts exactly the documents of the run over the same values, in order, and ends in the same
   connections.
   */
  lemma {:induction false} WritesAreTheRun(s: Client, writes: seq<Write>, queue: seq<OpcValue>)
    requires s.conns != [] && InsertedDocs(writes) == s.inserts
    ensures var t, u := PublishAll(s.store, Published(s.conns, writes), queue), Run(s, Takes(queue));
            InsertedDocs(t.writes) == u.inserts && t.conns == u.conns && u.store == s.store
    decreases |queue|
  {
    if queue != [] {
      var front, ov := queue[..|queue| - 1], queue[|queue| - 1];
      WritesAreTheRun(s, writes, front);
      TakesFront(queue);
      InsertsOfValue(s.store, PublishAll(s.store, Published(s.conns, writes), front), ov);
    }
  }

  /** Where a value wants its update. */
  datatype Target = Target(connNumber: int, address: string)

  function UpdatedTargets(writes: seq<Write>): seq<Target>
    decreases |writes|
  {
    if writes == [] then []
    else
      var last := writes[|writes| - 1];
      UpdatedTargets(writes[..|writes| - 1]) + (if last.Update? then [Target(last.connNumber, last.address)] else [])
  }

  function WantedTargets(queue: seq<OpcValue>): seq<Target>
    decreases |queue|
  {
    if queue == [] then []
    else
      var last := queue[|queue| - 1];
      WantedTargets(queue[..|queue| - 1]) + (if last.tooBig then [] else [Target(last.connNumber, last.address)])
  }

  lemma {:induction false} UpdatedTargetsAppend(a: seq<Write>, b: seq<Write>)
    ensures UpdatedTargets(a + b) == UpdatedTargets(a) + UpdatedTargets(b)
    decreases |b|
  {
    if b == [] {
      assert a + b == a;
    } else {
      assert (a + b)[..|a + b| - 1] == a + b[..|b| - 1];
      UpdatedTargetsAppend(a, b[..|b| - 1]);
    }
  }

  lemma {:induction false} InsertsUpdateNothing(docs: seq<RtDoc>)
    ensures UpdatedTargets(Inserts(docs)) == []
    decreases |docs|
  {
    if docs != [] {
      assert Inserts(docs)[..|docs| - 1] == Inserts(docs[..|docs| - 1]);
      InsertsUpdateNothing(docs[..|docs| - 1]);
    }
  }

  /** The updates are those of the values that are not too big, in order. */
  lemma {:induction false} UpdatesAreTheValues(store: set<int>, s: Published, queue: seq<OpcValue>)
    requires s.conns != []
    ensures UpdatedTargets(PublishAll(store, s, queue).writes) == UpdatedTargets(s.writes) + WantedTargets(queue)
    decreases |queue|
  {
    if queue != [] {
      var front, ov := queue[..|queue| - 1], queue[|queue| - 1];
      UpdatesAreTheValues(store, s, front);
      var t := PublishAll(store, s, front);
      var docs := Publish(store, t.conns[ConnIndex(t.conns, ov.connNumber)], ov).1;
      UpdatedTargetsAppend(t.writes, Inserts(docs) + UpdateOf(ov));
      UpdatedTargetsAppend(Inserts(docs), UpdateOf(ov));
      InsertsUpdateNothing(docs);
      assert [Update(ov.connNumber, ov.address)][..0] == [];
    }
  }

  // ---------------------------------------------------------------- keys and documents, field by field

  /** A million keys per connection, in 32 bits. */
  lemma {:induction false} FirstKeys()
    ensures AutoKeyId(1) == 1000000 && AutoKeyId(2) == 2000000 && AutoKeyId(2146) == 2146000000
    ensures AutoKeyId(2148) == 2148000000 - 4294967296
  {
  }

  /** The first key follows the highest stored one of the range, and is the base of the range when there is none. */
  lemma {:induction false} FirstKeyFollows(store: set<int>, n: int)
    requires ValidNumber(n)
    ensures var k, base := FirstKey(store, n), n * 1000000;
            || (k == base && forall x :: x in store ==> !(base < x < base + 1000000))
            || (k - 1 in store && base < k - 1 < base + 1000000 && forall x :: x in store && base < x < base + 1000000
                                                                     ==> x < k)
  {
    RangesAreDisjoint(n, n, 0);
    var keys := KeysInRange(store, n);
    assert forall x :: x in store && AutoKeyId(n) < x < AutoKeyId(n + 1) ==> x in keys;
  }

  /** A connection counts on from its last key, and a value takes one key per document. */
  lemma {:induction false} KeysCountOn(store: set<int>, c: Conn, ov: OpcValue)
    requires ov.selfPublish && ov.address !in c.insertedAddresses
    ensures var p := Publish(store, c, ov);
            && (c.lastNewKeyCreated != 0 ==> p.1[0].id == c.lastNewKeyCreated + 1)
            && (c.lastNewKeyCreated == 0 ==> p.1[0].id == FirstKey(store, ov.connNumber))
            && p.0.lastNewKeyCreated == p.1[|p.1| - 1].id && p.0.insertedAddresses == c.insertedAddresses + {ov.address}
            && p.0.number == c.number && p.0.commandsEnabled == c.commandsEnabled
  {
  }

  /** A value that does not publish, or whose address is known, changes nothing. */
  lemma {:induction false} NothingToPublish(store: set<int>, c: Conn, ov: OpcValue)
    ensures Publish(store, c, ov) == (c, []) <==> !ov.selfPublish || ov.address in c.insertedAddresses
  {
    if ov.selfPublish && ov.address !in c.insertedAddresses {
      NewDocsFacts(c, ov, NextKey(store, c, ov.connNumber));
    }
  }

  /** The documents of a value: a supervised one or a method's command; for a writable variable a command before it. */
  lemma {:induction false} DocumentsOfValue(c: Conn, ov: OpcValue, key: int)
    ensures var docs, last := NewDocs(c, ov, key), if ov.createCommandForMethod then Command else Supervised;
            if c.commandsEnabled && ov.createCommandForSupervised
            then && |docs| == 2
                 && docs[0] == RtDoc(key, Command, ov.connNumber, ov.address, key + 1, 0)
                 && docs[1] == RtDoc(key + 1, last, ov.connNumber, ov.address, 0, if last == Command then 0 else key)
            else docs == [RtDoc(key, last, ov.connNumber, ov.address, 0, 0)]
  {
  }

  /** A value belongs to the first connection with its number, or to the first of all. */
  lemma {:induction false} ConnIndexIsFirst(conns: seq<Conn>, number: int)
    requires conns != []
    ensures var i := ConnIndex(conns, number);
            if exists j :: 0 <= j < |conns| && conns[j].number == number
            then conns[i].number == number && forall j :: 0 <= j < i ==> conns[j].number != number
            else i == 0
    decreases |conns|
  {
    if conns[0].number != number && |conns| > 1 {
      ConnIndexIsFirst(conns[1..], number);
      assert forall j :: 1 <= j < |conns| ==> conns[j] == conns[1..][j - 1];
    }
  }
}
