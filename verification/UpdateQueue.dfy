/**
 Draining the queue of realtimeData updates into one unordered bulk write
 (processRtDataMongoUpdates, src/cs_data_processor/cs_data_processor.js:142-193).
 */
module UpdateQueue {
  import opened Options

  /** A queued update: the fields to set and, for beeps, a group to add to the list of beeping groups. */
  datatype Queued = Queued(id: int, fields: map<string, string>, addToSet: Option<string>)

  datatype Op =
    | SetOp(id: int, fields: map<string, string>)
    | AddOp(id: int, group: string)

  /** A document.  `$addToSet` treats the list of beeping groups as a set. */
  datatype Doc = Doc(fields: map<string, string>, beepGroup1List: set<string>)

  type Store = map<int, Doc>

  function OpsOfOne(q: Queued): seq<Op> {
    [SetOp(q.id, q.fields)] + (if q.addToSet.Some? then [AddOp(q.id, q.addToSet.value)] else [])
  }

  function OpsOf(queue: seq<Queued>): seq<Op>
    decreases |queue|
  {
    if queue == [] then [] else OpsOfOne(queue[0]) + OpsOf(queue[1..])
  }

  class UpdateSender {
    var mongoRtDataQueue: seq<Queued>

    constructor ()
      ensures mongoRtDataQueue == []
    {
      mongoRtDataQueue := [];
    }

    method Drain() returns (updArr: seq<Op>, cnt: nat)
      modifies this
      ensures mongoRtDataQueue == []
      ensures updArr == OpsOf(old(mongoRtDataQueue)) && cnt == |updArr|
    {
      updArr, cnt := [], 0;
      while mongoRtDataQueue != []
        invariant updArr + OpsOf(mongoRtDataQueue) == OpsOf(old(mongoRtDataQueue)) && cnt == |updArr|
        decreases |mongoRtDataQueue|
      {
        var upd := mongoRtDataQueue[0];
        mongoRtDataQueue := mongoRtDataQueue[1..];
        ghost var before := updArr;
        updArr := updArr + [SetOp(upd.id, upd.fields)];
        cnt := cnt + 1;
        if upd.addToSet.Some? {
          updArr := updArr + [AddOp(upd.id, upd.addToSet.value)];
          cnt := cnt + 1;
        }
        assert updArr == before + OpsOfOne(upd);
      }
    }
  }

  // ---------------------------------------------------------------- what the database does

  function ApplyOp(s: Store, op: Op): Store {
    if op.id !in s then s
    else match op
    case SetOp(id, fields) => s[id := Doc(s[id].fields + fields, s[id].beepGroup1List)]
    case AddOp(id, group) => s[id := Doc(s[id].fields, s[id].beepGroup1List + {group})]
  }

  function ApplyOps(s: Store, ops: seq<Op>): Store
    decreases |ops|
  {
    if ops == [] then s else ApplyOps(ApplyOp(s, ops[0]), ops[1..])
  }

  /** One update as the change handler meant it. */
  function ApplyUpdate(s: Store, q: Queued): Store {
    if q.id !in s then s
    else s[q.id := Doc(s[q.id].fields + q.fields,
                       s[q.id].beepGroup1List + if q.addToSet.Some? then {q.addToSet.value} else {})]
  }

  function ApplyQueued(s: Store, queue: seq<Queued>): Store
    decreases |queue|
  {
    if queue == [] then s else ApplyQueued(ApplyUpdate(s, queue[0]), queue[1..])
  }

  lemma {:induction false} ApplyAppend(s: Store, a: seq<Op>, b: seq<Op>)
    ensures ApplyOps(s, a + b) == ApplyOps(ApplyOps(s, a), b)
    decreases |a|
  {
    if a == [] {
      assert a + b == b;
    } else {
      assert (a + b)[1..] == a[1..] + b;
      ApplyAppend(ApplyOp(s, a[0]), a[1..], b);
    }
  }

  lemma {:induction false} ApplyOne(s: Store, op: Op)
    ensures ApplyOps(s, [op]) == ApplyOp(s, op)
  {
    assert [op][1..] == [];
  }

  lemma {:induction false} UpdateInTwoOps(s: Store, q: Queued)
    ensures ApplyOps(s, OpsOfOne(q)) == ApplyUpdate(s, q)
  {
    var first := SetOp(q.id, q.fields);
    var t := ApplyOp(s, first);
    ApplyOne(s, first);
    if q.addToSet.Some? {
      var add := AddOp(q.id, q.addToSet.value);
      ApplyAppend(s, [first], [add]);
      ApplyOne(t, add);
      assert q.id in s ==> ApplyOp(t, add) == s[q.id := ApplyOp(t, add)[q.id]];
    } else {
      assert OpsOfOne(q) == [first];
      assert q.id in s ==> s[q.id].beepGroup1List + {} == s[q.id].beepGroup1List;
    }
  }

  /** Splitting each update in two operations does not change what the batch does when applied in order. */
  lemma {:induction false} DrainedInOrder(s: Store, queue: seq<Queued>)
    ensures ApplyOps(s, OpsOf(queue)) == ApplyQueued(s, queue)
    decreases |queue|
  {
    if queue != [] {
      UpdateInTwoOps(s, queue[0]);
      ApplyAppend(s, OpsOfOne(queue[0]), OpsOf(queue[1..]));
      DrainedInOrder(ApplyUpdate(s, queue[0]), queue[1..]);
    }
  }

  // ---------------------------------------------------------------- the batch is sent unordered

  ghost predicate Permutation(a: seq<Op>, b: seq<Op>) {
    multiset(a) == multiset(b)
  }

  /** Two operations do not set one field of one stored document to different values. */
  predicate Compatible(s: Store, x: Op, y: Op) {
    x.SetOp? && y.SetOp? && x.id == y.id && x.id in s
    ==> forall f :: f in x.fields && f in y.fields ==> x.fields[f] == y.fields[f]
  }

  predicate AllCompatible(s: Store, ops: seq<Op>) {
    forall x, y :: x in ops && y in ops ==> Compatible(s, x, y)
  }

  lemma {:induction false} ApplyKeepsKeys(s: Store, ops: seq<Op>)
    ensures ApplyOps(s, ops).Keys == s.Keys
    decreases |ops|
  {
    if ops != [] {
      ApplyKeepsKeys(ApplyOp(s, ops[0]), ops[1..]);
    }
  }

  lemma {:induction false} Commute(s: Store, x: Op, y: Op)
    requires Compatible(s, x, y)
    ensures ApplyOp(ApplyOp(s, x), y) == ApplyOp(ApplyOp(s, y), x)
  {
    if x.id in s && x.id == y.id {
      SameDocCommute(s, x, y);
    }
  }

  lemma {:induction false} SameDocCommute(s: Store, x: Op, y: Op)
    requires Compatible(s, x, y) && x.id in s && x.id == y.id
    ensures ApplyOp(ApplyOp(s, x), y) == ApplyOp(ApplyOp(s, y), x)
  {
    var a, b := ApplyOp(ApplyOp(s, x), y), ApplyOp(ApplyOp(s, y), x);
    assert a[x.id].fields == b[x.id].fields;
    assert a[x.id].beepGroup1List == b[x.id].beepGroup1List;
    assert a == s[x.id := a[x.id]] && b == s[x.id := b[x.id]];
  }

  lemma {:induction false} MoveToFront(s: Store, ops: seq<Op>, j: nat)
    requires j < |ops| && AllCompatible(s, ops)
    ensures ApplyOps(s, ops) == ApplyOps(s, [ops[j]] + (ops[..j] + ops[j + 1..]))
    decreases |ops|
  {
    var x, rest := ops[j], ops[..j] + ops[j + 1..];
    assert ([x] + rest)[1..] == rest;
    if j == 0 {
      assert ops == [x] + rest;
    } else {
      var y, tail := ops[0], ops[1..];
      assert rest[0] == y && rest[1..] == tail[..j - 1] + tail[j..];
      assert forall z :: z in tail ==> z in ops;
      assert AllCompatible(ApplyOp(s, y), tail);
      MoveToFront(ApplyOp(s, y), tail, j - 1);
      assert ([x] + rest[1..])[1..] == rest[1..];
      assert x in ops && y in ops;
      Commute(s, x, y);
    }
  }

  lemma {:induction false} SplitAt(ops: seq<Op>, j: nat)
    requires j < |ops|
    ensures multiset(ops) == multiset(ops[..j] + ops[j + 1..]) + multiset{ops[j]}
  {
    assert ops == ops[..j] + [ops[j]] + ops[j + 1..];
  }

  lemma {:induction false} RemoveFromBoth(a: seq<Op>, b: seq<Op>, j: nat)
    requires Permutation(a, b) && a != [] && j < |b| && b[j] == a[0]
    ensures Permutation(a[1..], b[..j] + b[j + 1..])
  {
    SplitAt(a, 0);
    SplitAt(b, j);
    assert a[..0] + a[1..] == a[1..];
    Cancel(multiset(a[1..]), multiset(b[..j] + b[j + 1..]), a[0]);
  }

  lemma {:induction false} Cancel(m: multiset<Op>, n: multiset<Op>, x: Op)
    requires m + multiset{x} == n + multiset{x}
    ensures m == n
  {
    forall o
      ensures m[o] == n[o]
    {
      assert (m + multiset{x})[o] == (n + multiset{x})[o];
    }
  }

  lemma {:induction false} OrderDoesNotMatter(s: Store, a: seq<Op>, b: seq<Op>)
    requires Permutation(a, b) && AllCompatible(s, b)
    ensures ApplyOps(s, a) == ApplyOps(s, b)
    decreases |a|
  {
    assert |a| == |multiset(a)| == |multiset(b)| == |b|;
    if a != [] {
      var x := a[0];
      assert x in multiset(b);
      var j :| 0 <= j < |b| && b[j] == x;
      var rest := b[..j] + b[j + 1..];
      MoveToFront(s, b, j);
      assert ([x] + rest)[0] == x && ([x] + rest)[1..] == rest;
      RemoveFromBoth(a, b, j);
      RestCompatible(s, b, j);
      OrderDoesNotMatter(ApplyOp(s, x), a[1..], rest);
    }
  }

  lemma {:induction false} RestCompatible(s: Store, ops: seq<Op>, j: nat)
    requires j < |ops| && AllCompatible(s, ops)
    ensures AllCompatible(ApplyOp(s, ops[j]), ops[..j] + ops[j + 1..])
  {
    assert forall z :: z in ops[..j] + ops[j + 1..] ==> z in ops;
  }

  function ToEnd(ops: seq<Op>, k: nat): (a: seq<Op>)
    requires k < |ops|
  {
    ops[..k] + ops[k + 1..] + [ops[k]]
  }

  /** The operation moved to the end has the last word. */
  lemma {:induction false} MovedToEnd(s: Store, ops: seq<Op>, k: nat, f: string)
    requires k < |ops| && ops[k].SetOp? && ops[k].id in s && f in ops[k].fields
    ensures Permutation(ToEnd(ops, k), ops)
    ensures ops[k].id in ApplyOps(s, ToEnd(ops, k))
    ensures var fields := ApplyOps(s, ToEnd(ops, k))[ops[k].id].fields; f in fields && fields[f] == ops[k].fields[f]
  {
    var front := ops[..k] + ops[k + 1..];
    SplitAt(ops, k);
    ApplyAppend(s, front, [ops[k]]);
    ApplyOne(ApplyOps(s, front), ops[k]);
    ApplyKeepsKeys(s, front);
  }

  /** If two operations conflict, moving one of them to the end gives a different store. */
  lemma {:induction false} ConflictIsVisible(s: Store, ops: seq<Op>, x: Op, y: Op)
    requires x in ops && y in ops && !Compatible(s, x, y)
    ensures exists a :: Permutation(a, ops) && ApplyOps(s, a) != ApplyOps(s, ops)
  {
    var f :| f in x.fields && f in y.fields && x.fields[f] != y.fields[f];
    var i :| 0 <= i < |ops| && ops[i] == x;
    var j :| 0 <= j < |ops| && ops[j] == y;
    MovedToEnd(s, ops, i, f);
    MovedToEnd(s, ops, j, f);
    assert ApplyOps(s, ToEnd(ops, i)) != ApplyOps(s, ToEnd(ops, j));
  }

  /**
   The batch means the queued updates under every order the database may choose, exactly when no
   two of them set one field of a stored document to different values.
   */
  lemma {:induction false} UnorderedBatchIsSafeIff(s: Store, queue: seq<Queued>)
    ensures (forall a :: Permutation(a, OpsOf(queue)) ==> ApplyOps(s, a) == ApplyQueued(s, queue))
            <==> AllCompatible(s, OpsOf(queue))
  {
    var ops := OpsOf(queue);
    DrainedInOrder(s, queue);
    if AllCompatible(s, ops) {
      forall a | Permutation(a, ops)
        ensures ApplyOps(s, a) == ApplyQueued(s, queue)
      {
        OrderDoesNotMatter(s, a, ops);
      }
    } else {
      var x, y :| x in ops && y in ops && !Compatible(s, x, y);
      ConflictIsVisible(s, ops, x, y);
    }
  }

  lemma {:induction false} GroupsAfter(s: Store, ops: seq<Op>, id: int)
    requires id in s
    ensures id in ApplyOps(s, ops)
    ensures forall g :: g in ApplyOps(s, ops)[id].beepGroup1List <==> g in s[id].beepGroup1List || AddOp(id, g) in ops
    decreases |ops|
  {
    if ops != [] {
      GroupsAfter(ApplyOp(s, ops[0]), ops[1..], id);
      assert forall o :: o in ops <==> o == ops[0] || o in ops[1..];
    }
  }

  /** The list of beeping groups always ends as the same set, conflicts or not. */
  lemma {:induction false} BeepGroupsIgnoreOrder(s: Store, queue: seq<Queued>, a: seq<Op>, id: int)
    requires Permutation(a, OpsOf(queue)) && id in s
    ensures id in ApplyOps(s, a) && id in ApplyQueued(s, queue)
    ensures ApplyOps(s, a)[id].beepGroup1List == ApplyQueued(s, queue)[id].beepGroup1List
  {
    DrainedInOrder(s, queue);
    GroupsAfter(s, a, id);
    GroupsAfter(s, OpsOf(queue), id);
    assert forall o :: o in a <==> o in multiset(a);
    assert forall o :: o in OpsOf(queue) <==> o in multiset(OpsOf(queue));
  }

  /** Each entry gives one set operation with its fields and, right after it, one add operation if it has a group. */
  lemma {:induction false} OpsOfEntry(q: Queued, queue: seq<Queued>)
    ensures OpsOf([q] + queue)
            == (if q.addToSet.Some? then [SetOp(q.id, q.fields), AddOp(q.id, q.addToSet.value)]
                else [SetOp(q.id, q.fields)])
               + OpsOf(queue)
    ensures OpsOf([]) == []
  {
    assert ([q] + queue)[1..] == queue;
  }
}
