/**
 Hot-standby failover of one process (src/cs_data_processor/redundancy.js).

 Nodes share one instance document.  A poll reads the document and decides; the write it
 issues is not awaited, so reading and committing are separate steps of the system and any
 number of them may interleave with crashes, disconnections and operator edits.
 */
module Failover {
  import opened Options

  /** redundancy.js:49: takeover happens when the counter exceeds this value. */
  const COUNT_LIMIT: nat := 4

  /** The `activeNodeKeepAliveTimeTag` property: missing, null, or a date in milliseconds. */
  datatype KeepAlive = Missing | NullDate | Date(ms: int)

  /** The `nodeNames` property: missing, null, or a list of allowed nodes. */
  datatype NodeNames = NoProperty | NullNames | Names(list: seq<string>)

  /** `disabled` says that the property `enabled` is exactly `false`. */
  datatype Instance = Instance(disabled: bool, nodeNames: NodeNames, activeNodeName: Option<string>,
                               keepAlive: KeepAlive)

  datatype Write =
    | InsertInstance(node: string, ms: int)
    | UpdateKeepAlive(node: string, ms: int)

  /** The state one process keeps between two timer ticks. */
  datatype Node = Node(running: bool, active: bool, count: nat, lastTag: Option<int>)

  const STARTED := Node(true, false, 0, None)
  const STOPPED := Node(false, false, 0, None)

  /** What one poll does: the new process state, the write it issues, and whether it ran to its end. */
  datatype Outcome = Outcome(node: Node, write: Option<Write>, completed: bool)

  predicate NodeExcluded(names: NodeNames, me: string) {
    names.Names? && |names.list| > 0 && me !in names.list
  }

  function TagOf(k: KeepAlive): Option<int> {
    if k.Date? then Some(k.ms) else None
  }

  /** The standby branch: another node is named in the document. */
  function Standby(node: Node, tag: Option<int>): Node {
    var before := if node.active then 0 else node.count;
    var count := if node.lastTag == tag then before + 1 else 0;
    if count > COUNT_LIMIT then Node(true, true, 0, tag) else Node(true, false, count, tag)
  }

  /** One run of `ProcessRedundancy` against the document it reads. */
  function Decide(node: Node, me: string, found: Option<Instance>, now: int): Outcome {
    match found
    case None => Outcome(node.(active := true), Some(InsertInstance(me, now)), true)
    case Some(inst) =>
      if inst.keepAlive.NullDate? then Outcome(node, None, false)
      else if inst.disabled then Outcome(STOPPED, None, true)
      else if inst.nodeNames.NoProperty? then Outcome(node, None, false)
      else if NodeExcluded(inst.nodeNames, me) then Outcome(STOPPED, None, true)
      else
        var next :=
          if inst.activeNodeName == Some(me) then node.(active := true, count := 0)
          else Standby(node.(running := true), TagOf(inst.keepAlive));
        Outcome(next, if next.active then Some(UpdateKeepAlive(me, now)) else None, true)
  }

  /**
   What the database does with a write.  The index on process name and number is unique, so a second insert is
   refused.
   */
  function Apply(doc: Option<Instance>, w: Write): Option<Instance> {
    match w
    case InsertInstance(node, ms) =>
      if doc.Some? then doc else Some(Instance(false, Names([]), Some(node), Date(ms)))
    case UpdateKeepAlive(node, ms) =>
      if doc.None? then doc else Some(doc.value.(activeNodeName := Some(node), keepAlive := Date(ms)))
  }

  // ---------------------------------------------------------------- the program

  /** The instance collection, with the writes that were issued and not yet applied. */
  class InstanceCollection {
    var doc: Option<Instance>
    var inFlight: seq<Write>

    constructor (doc: Option<Instance>)
      ensures this.doc == doc && inFlight == []
    {
      this.doc := doc;
      inFlight := [];
    }

    method Commit(k: nat)
      requires k < |inFlight|
      modifies this
      ensures doc == Apply(old(doc), old(inFlight)[k])
      ensures inFlight == old(inFlight)[..k] + old(inFlight)[k + 1..]
    {
      match inFlight[k] {
        case InsertInstance(node, ms) =>
          if doc.None? {
            doc := Some(Instance(false, Names([]), Some(node), Date(ms)));
          }
        case UpdateKeepAlive(node, ms) =>
          if doc.Some? {
            doc := Some(doc.value.(activeNodeName := Some(node), keepAlive := Date(ms)));
          }
      }
      inFlight := inFlight[..k] + inFlight[k + 1..];
    }
  }

  class RedundancyProcess {
    const nodeName: string
    var running: bool
    var processActive: bool
    var countKeepAliveNotUpdated: nat
    var lastActiveNodeKeepAliveTimeTag: Option<int>

    constructor (nodeName: string)
      ensures this.nodeName == nodeName && State() == STARTED
    {
      this.nodeName := nodeName;
      running, processActive := true, false;
      countKeepAliveNotUpdated := 0;
      lastActiveNodeKeepAliveTimeTag := None;
    }

    function State(): Node
      reads this
    {
      Node(running, processActive, countKeepAliveNotUpdated, lastActiveNodeKeepAliveTimeTag)
    }

    method ProcessRedundancy(db: InstanceCollection, now: int) returns (completed: bool)
      requires running
      modifies this, db`inFlight
      ensures var o := Decide(old(State()), nodeName, db.doc, now);
              && State() == o.node
              && completed == o.completed
              && db.inFlight == old(db.inFlight) + (if o.write.Some? then [o.write.value] else [])
    {
      if db.doc.None? {
        processActive := true;
        db.inFlight := db.inFlight + [InsertInstance(nodeName, now)];
        return true;
      }
      var instance := db.doc.value;
      var instKeepAliveTimeTag: Option<int> := None;
      if instance.keepAlive != Missing {
        if instance.keepAlive.NullDate? {
          return false;  // toISOString of null throws; the error is only logged
        }
        instKeepAliveTimeTag := Some(instance.keepAlive.ms);
      }
      if instance.disabled {
        Exit();
        return true;
      }
      if instance.nodeNames.NoProperty? {
        return false;  // length of undefined throws
      }
      if NodeExcluded(instance.nodeNames, nodeName) {
        Exit();
        return true;
      }
      if instance.activeNodeName == Some(nodeName) {
        countKeepAliveNotUpdated := 0;
        processActive := true;
      } else {
        if processActive {
          countKeepAliveNotUpdated := 0;
        }
        processActive := false;
        if lastActiveNodeKeepAliveTimeTag == instKeepAliveTimeTag {
          countKeepAliveNotUpdated := countKeepAliveNotUpdated + 1;
        } else {
          countKeepAliveNotUpdated := 0;
        }
        lastActiveNodeKeepAliveTimeTag := instKeepAliveTimeTag;
        if countKeepAliveNotUpdated > COUNT_LIMIT {
          countKeepAliveNotUpdated := 0;
          processActive := true;
        }
      }
      if processActive {
        db.inFlight := db.inFlight + [UpdateKeepAlive(nodeName, now)];
      }
      return true;
    }

    /** One tick of the timer set up by `Start`. */
    method Tick(db: InstanceCollection, connected: bool, now: int)
      requires running
      modifies this, db`inFlight
      ensures connected ==>
                var o := Decide(old(State()), nodeName, db.doc, now);
                && State() == o.node
                && db.inFlight == old(db.inFlight) + (if o.write.Some? then [o.write.value] else [])
      ensures !connected ==> State() == old(State()).(active := false) && db.inFlight == old(db.inFlight)
    {
      if !connected {
        processActive := false;
        return;
      }
      var _ := ProcessRedundancy(db, now);
    }

    method Exit()
      modifies this
      ensures State() == STOPPED
    {
      running, processActive := false, false;
      countKeepAliveNotUpdated := 0;
      lastActiveNodeKeepAliveTimeTag := None;
    }
  }

  // ---------------------------------------------------------------- the system of nodes

  /** `readSinceChange` is the history of who completed a poll since ownership last changed. */
  datatype System = System(
    nodes: map<string, Node>,
    doc: Option<Instance>,
    inFlight: seq<Write>,
    readSinceChange: set<string>)

  datatype Step =
    | Read(n: string, now: int)
    | Commit(k: nat)
    | Disconnect(n: string)
    | Crash(n: string)
    | StartNode(n: string)
    | Edit(doc: Option<Instance>)

  /** Who owns the role: no document, a document naming nobody, or a named node. */
  function Owner(doc: Option<Instance>): Option<Option<string>> {
    if doc.None? then None else Some(doc.value.activeNodeName)
  }

  function WithDoc(s: System, doc: Option<Instance>): System {
    s.(doc := doc, readSinceChange := if Owner(doc) == Owner(s.doc) then s.readSinceChange else {})
  }

  function Next(s: System, step: Step): System {
    match step
    case Read(n, now) =>
      if n in s.nodes && s.nodes[n].running then
        var o := Decide(s.nodes[n], n, s.doc, now);
        System(s.nodes[n := o.node],
               s.doc,
               if o.write.Some? then s.inFlight + [o.write.value] else s.inFlight,
               if o.completed then s.readSinceChange + {n} else s.readSinceChange)
      else s
    case Commit(k) =>
      if k < |s.inFlight| then
        WithDoc(s, Apply(s.doc, s.inFlight[k])).(inFlight := s.inFlight[..k] + s.inFlight[k + 1..])
      else s
    case Disconnect(n) => if n in s.nodes then s.(nodes := s.nodes[n := s.nodes[n].(active := false)]) else s
    case Crash(n) => if n in s.nodes then s.(nodes := s.nodes[n := STOPPED]) else s
    case StartNode(n) => s.(nodes := s.nodes[n := STARTED])
    case Edit(doc) => WithDoc(s, doc)
  }

  function Run(s: System, steps: seq<Step>): System
    decreases |steps|
  {
    if steps == [] then s else Run(Next(s, steps[0]), steps[1..])
  }

  predicate Initial(s: System) {
    && (forall n :: n in s.nodes ==> s.nodes[n] == STARTED || s.nodes[n] == STOPPED)
    && s.inFlight == [] && s.readSinceChange == {}
  }

  /** The write that will make `n` the owner is still on its way to the document. */
  predicate Claiming(s: System, n: string) {
    exists k :: 0 <= k < |s.inFlight| && s.inFlight[k].node == n && s.inFlight[k].InsertInstance? == s.doc.None?
  }

  predicate Settled(s: System, n: string)
    requires n in s.nodes
  {
    s.nodes[n].active && Owner(s.doc) != Some(Some(n)) && n in s.readSinceChange ==> Claiming(s, n)
  }

  /** A node that is active without being named has either not read since the change, or is claiming the role. */
  predicate Inv(s: System) {
    forall n :: n in s.nodes ==> Settled(s, n)
  }

  lemma {:induction false} ClaimSurvives(s: System, t: System, n: string, k: nat)
    requires Claiming(s, n) && k < |s.inFlight|
    requires s.inFlight[k].node != n || s.inFlight[k].InsertInstance? != s.doc.None?
    requires t.doc.None? == s.doc.None? && t.inFlight == s.inFlight[..k] + s.inFlight[k + 1..]
    ensures Claiming(t, n)
  {
    var j :| 0 <= j < |s.inFlight| && s.inFlight[j].node == n && s.inFlight[j].InsertInstance? == s.doc.None?;
    assert t.inFlight[if j < k then j else j - 1] == s.inFlight[j];
  }

  lemma {:induction false} ReadKeepsInv(s: System, n: string, now: int)
    requires Inv(s)
    ensures Inv(Next(s, Read(n, now)))
  {
    var t := Next(s, Read(n, now));
    if n in s.nodes && s.nodes[n].running {
      forall m | m in t.nodes
        ensures Settled(t, m)
      {
        var o := Decide(s.nodes[n], n, s.doc, now);
        assert Settled(s, m);
        if m == n && o.write.Some? {
          assert t.inFlight[|s.inFlight|] == o.write.value;
        }
        if Claiming(s, m) {
          var j :| 0 <= j < |s.inFlight| && s.inFlight[j].node == m && s.inFlight[j].InsertInstance? == s.doc.None?;
          assert t.inFlight[j] == s.inFlight[j];
        }
      }
    }
  }

  lemma {:induction false} CommitKeepsInv(s: System, k: nat)
    requires Inv(s)
    ensures Inv(Next(s, Commit(k)))
  {
    var t := Next(s, Commit(k));
    if k < |s.inFlight| {
      forall m | m in t.nodes
        ensures Settled(t, m)
      {
        assert Settled(s, m);
        if t.nodes[m].active && Owner(t.doc) != Some(Some(m)) && m in t.readSinceChange {
          ClaimSurvives(s, t, m, k);
        }
      }
    }
  }

  lemma {:induction false} StepKeepsInv(s: System, step: Step)
    requires Inv(s)
    ensures Inv(Next(s, step))
  {
    match step
    case Read(n, now) => ReadKeepsInv(s, n, now);
    case Commit(k) => CommitKeepsInv(s, k);
    case _ =>
      var t := Next(s, step);
      forall m | m in t.nodes
        ensures Settled(t, m)
      {
        assert m in s.nodes ==> Settled(s, m);
        assert t.inFlight == s.inFlight;
      }
  }

  /** Every reachable state satisfies the invariant, whatever the interleaving. */
  lemma {:induction false} RunKeepsInv(s: System, steps: seq<Step>)
    requires Inv(s)
    ensures Inv(Run(s, steps))
    decreases |steps|
  {
    if steps != [] {
      StepKeepsInv(s, steps[0]);
      RunKeepsInv(Next(s, steps[0]), steps[1..]);
    }
  }

  /**
   A node active without being named has not completed a poll since ownership changed, unless its own claim is
   in flight.
   */
  lemma {:induction false} UnnamedActiveHasNotPolled(s: System, steps: seq<Step>, n: string)
    requires Initial(s)
    ensures var t := Run(s, steps);
            n in t.nodes && t.nodes[n].active && Owner(t.doc) != Some(Some(n))
            ==> n !in t.readSinceChange || Claiming(t, n)
  {
    RunKeepsInv(s, steps);
    var t := Run(s, steps);
    assert n in t.nodes ==> Settled(t, n);
  }

  /**
   Safety of whole runs: once every active node has polled after the last change and no write is pending, one
   node at most is active, and it is the owner.
   */
  lemma {:induction false} AtMostOneActive(s: System, steps: seq<Step>)
    requires Initial(s)
    ensures var t := Run(s, steps);
            t.inFlight == [] && (forall n :: n in t.nodes && t.nodes[n].active ==> n in t.readSinceChange)
            ==> forall n, m :: n in t.nodes && m in t.nodes && t.nodes[n].active && t.nodes[m].active
                               ==> n == m && Owner(t.doc) == Some(Some(n))
  {
    forall n {
      UnnamedActiveHasNotPolled(s, steps, n);
    }
  }

  /** A displaced owner goes inactive at its next completed poll and cannot retake the role in it. */
  lemma {:induction false} DisplacedOwnerYields(node: Node, me: string, inst: Instance, now: int)
    requires node.running && node.active && inst.activeNodeName != Some(me)
    requires Decide(node, me, Some(inst), now).completed
    ensures var o := Decide(node, me, Some(inst), now);
            !o.node.active && o.write.None? && o.node.count <= 1
  {
  }

  // ---------------------------------------------------------------- takeover after the owner stops

  /** `k` polls of one node against a document nobody else writes, each write applied before the next poll. */
  function SoloPolls(node: Node, me: string, doc: Option<Instance>, times: seq<int>): (Node, Option<Instance>)
    decreases |times|
  {
    if times == [] then (node, doc)
    else
      var o := Decide(node, me, doc, times[0]);
      SoloPolls(o.node, me, if o.write.Some? then Apply(doc, o.write.value) else doc, times[1..])
  }

  predicate Admits(inst: Instance, me: string) {
    && !inst.disabled && !inst.keepAlive.NullDate? && !inst.nodeNames.NoProperty?
    && !NodeExcluded(inst.nodeNames, me)
  }

  lemma {:induction false} OwnerStaysOwner(node: Node, me: string, inst: Instance, times: seq<int>)
    requires node.active && Admits(inst, me) && inst.activeNodeName == Some(me)
    ensures var (n, d) := SoloPolls(node, me, Some(inst), times);
            n.active && Owner(d) == Some(Some(me))
    decreases |times|
  {
    if times != [] {
      var o := Decide(node, me, Some(inst), times[0]);
      OwnerStaysOwner(o.node, me, Apply(Some(inst), o.write.value).value, times[1..]);
    }
  }

  /** Polls still needed before the node takes over a frozen document. */
  function PollsNeeded(node: Node, tag: Option<int>): nat {
    if node.active then (if node.lastTag == tag then 5 else 6)
    else if node.lastTag == tag then (if node.count >= COUNT_LIMIT then 1 else COUNT_LIMIT + 1 - node.count) else 6
  }

  /** The exact delay: the node is named after the polls counted by `PollsNeeded` and not one poll earlier. */
  lemma {:induction false} FrozenOwnerIsReplaced(node: Node, me: string, inst: Instance, times: seq<int>)
    requires node.running && Admits(inst, me) && inst.activeNodeName != Some(me)
    ensures var (n, d) := SoloPolls(node, me, Some(inst), times);
            && (|times| >= PollsNeeded(node, TagOf(inst.keepAlive)) <==> Owner(d) == Some(Some(me)))
            && (|times| >= PollsNeeded(node, TagOf(inst.keepAlive)) ==> n.active)
    decreases |times|
  {
    if times != [] {
      var o := Decide(node, me, Some(inst), times[0]);
      if o.node.active {
        OwnerStaysOwner(o.node, me, Apply(Some(inst), o.write.value).value, times[1..]);
      } else {
        FrozenOwnerIsReplaced(o.node, me, inst, times[1..]);
      }
    }
  }

  /** If the keep-alive stays frozen under another name, six polls are always enough, from any state of the counter. */
  lemma {:induction false} TakeoverBySixthPoll(node: Node, me: string, inst: Instance, times: seq<int>)
    requires node.running && Admits(inst, me) && inst.activeNodeName != Some(me)
    requires |times| >= 6
    ensures var (n, d) := SoloPolls(node, me, Some(inst), times);
            n.active && Owner(d) == Some(Some(me))
  {
    FrozenOwnerIsReplaced(node, me, inst, times);
  }

  // ---------------------------------------------------------------- who may take part

  /** The document shuts a node out: it is disabled, or its list of nodes is not empty and does not hold the node. */
  predicate ShutsOut(inst: Instance, me: string) {
    inst.disabled || (inst.nodeNames.Names? && inst.nodeNames.list != [] && me !in inst.nodeNames.list)
  }

  /**
   A listed node, or any node when nothing is listed, goes on; any other node stops, and so do all when the
   instance is disabled.
   */
  lemma {:induction false} PollStopsIff(node: Node, me: string, inst: Instance, now: int)
    requires node.running && !inst.keepAlive.NullDate?
    ensures var o := Decide(node, me, Some(inst), now);
            && (o.node == STOPPED && o.write.None? && o.completed
                <==> inst.disabled || (inst.nodeNames.Names? && inst.nodeNames.list != []
                                       && me !in inst.nodeNames.list))
            && (o.node == STOPPED || o.node.running)
            && (o.completed <==> inst.disabled || !inst.nodeNames.NoProperty?)
  {
  }

  /** Errors end a poll without any effect. */
  lemma {:induction false} FailedPollHasNoEffect(node: Node, me: string, inst: Instance, now: int)
    ensures var o := Decide(node, me, Some(inst), now);
            && (!o.completed <==> inst.keepAlive.NullDate? || (!inst.disabled && inst.nodeNames.NoProperty?))
            && (!o.completed ==> o.node == node && o.write.None?)
  {
  }

  /** A process that stays active says so under its own name and with the present time, and no other process writes. */
  lemma {:induction false} WritesOwnName(node: Node, me: string, inst: Instance, now: int)
    ensures var o := Decide(node, me, Some(inst), now);
            && (o.write.Some? <==> o.completed && o.node.active)
            && (o.write.Some? ==> o.write == Some(UpdateKeepAlive(me, now)))
  {
  }

  /** The first poll of all creates the document and the owner; the list it leaves shuts nobody out. */
  lemma {:induction false} FirstPollCreates(node: Node, me: string, now: int, other: string)
    ensures var o := Decide(node, me, None, now);
            && o.completed && o.node == node.(active := true) && o.write.Some?
            && var doc := Apply(None, o.write.value);
               && doc.Some? && doc.value.activeNodeName == Some(me) && doc.value.keepAlive == Date(now)
               && !doc.value.disabled && doc.value.nodeNames == Names([])
               && Decide(STARTED, other, doc, now).node.running && Decide(STARTED, other, doc, now).completed
  {
  }

  /**
   An update changes the owner and the date and leaves the rest of the document; an insert changes no stored
   document.
   */
  lemma {:induction false} ApplyKeepsAdmission(inst: Instance, w: Write)
    ensures var doc := Apply(Some(inst), w);
            && doc.Some? && doc.value.disabled == inst.disabled && doc.value.nodeNames == inst.nodeNames
            && (w.UpdateKeepAlive? ==> doc.value.activeNodeName == Some(w.node) && doc.value.keepAlive == Date(w.ms))
            && (w.InsertInstance? ==> doc == Some(inst))
    ensures Apply(None, UpdateKeepAlive(w.node, w.ms)) == None
  {
  }

  /** Nothing of the node is active or on its way to the document. */
  ghost predicate Silent(s: System, n: string) {
    && s.doc.Some? && ShutsOut(s.doc.value, n)
    && (n in s.nodes ==> !s.nodes[n].active)
    && (forall k :: 0 <= k < |s.inFlight| ==> s.inFlight[k].node != n)
  }

  lemma {:induction false} StepKeepsSilent(s: System, step: Step, n: string)
    requires Silent(s, n) && !step.Edit?
    ensures Silent(Next(s, step), n)
    ensures Owner(s.doc) != Some(Some(n)) ==> Owner(Next(s, step).doc) != Some(Some(n))
  {
    var t := Next(s, step);
    match step
    case Read(m, now) =>
      if m in s.nodes && s.nodes[m].running {
        if m == n && !s.doc.value.keepAlive.NullDate? {
          PollStopsIff(s.nodes[n], n, s.doc.value, now);
        }
        WritesOwnName(s.nodes[m], m, s.doc.value, now);
      }
    case Commit(k) =>
      if k < |s.inFlight| {
        ApplyKeepsAdmission(s.doc.value, s.inFlight[k]);
        assert forall j :: 0 <= j < |t.inFlight| ==> t.inFlight[j] == s.inFlight[if j < k then j else j + 1];
      }
    case _ =>
  }

  lemma {:induction false} RunKeepsSilent(s: System, steps: seq<Step>, n: string)
    requires Silent(s, n) && forall k :: 0 <= k < |steps| ==> !steps[k].Edit?
    ensures Silent(Run(s, steps), n)
    ensures Owner(s.doc) != Some(Some(n)) ==> Owner(Run(s, steps).doc) != Some(Some(n))
    decreases |steps|
  {
    if steps != [] {
      StepKeepsSilent(s, steps[0], n);
      RunKeepsSilent(Next(s, steps[0]), steps[1..], n);
    }
  }

  /**
   In every run without edits of the document, a node it shuts out stops at its next completed poll; if none of
   its writes is pending, it is never active again, whoever restarts it, and never becomes the owner again.
   */
  lemma {:induction false} ShutOutNodeStaysOut(s: System, n: string, now: int, steps: seq<Step>)
    requires n in s.nodes && s.nodes[n].running && s.doc.Some? && ShutsOut(s.doc.value, n)
    requires !s.doc.value.keepAlive.NullDate?
    requires forall k :: 0 <= k < |s.inFlight| ==> s.inFlight[k].node != n
    requires forall k :: 0 <= k < |steps| ==> !steps[k].Edit?
    ensures var t := Run(Next(s, Read(n, now)), steps);
            && Next(s, Read(n, now)).nodes[n] == STOPPED
            && (n in t.nodes ==> !t.nodes[n].active)
            && (Owner(s.doc) != Some(Some(n)) ==> Owner(t.doc) != Some(Some(n)))
  {
    PollStopsIff(s.nodes[n], n, s.doc.value, now);
    RunKeepsSilent(Next(s, Read(n, now)), steps, n);
  }

  /**
   A takeover ends the wait: if the new owner loses its connection before its claim is stored, it waits for five more
   polls.
   */
  lemma {:induction false} TakeoverStartsOver(node: Node, me: string, inst: Instance, now: int, times: seq<int>)
    requires !ShutsOut(inst, me) && !inst.nodeNames.NoProperty? && !inst.keepAlive.NullDate?
    requires node.running && inst.activeNodeName != Some(me)
    requires Decide(node, me, Some(inst), now).node.active
    ensures var after := Decide(node, me, Some(inst), now).node.(active := false);
            Owner(SoloPolls(after, me, Some(inst), times).1) == Some(Some(me)) <==> |times| >= 5
  {
    AdmitsIff(inst, me);
    FrozenOwnerIsReplaced(Decide(node, me, Some(inst), now).node.(active := false), me, inst, times);
  }

  /** A fresh standby needs six polls of a frozen date and five of a missing one, which it takes for one it has read. */
  lemma {:induction false} FreshStandbyDelay(me: string, inst: Instance, times: seq<int>)
    requires !ShutsOut(inst, me) && !inst.nodeNames.NoProperty? && !inst.keepAlive.NullDate?
    requires inst.activeNodeName != Some(me)
    ensures Owner(SoloPolls(STARTED, me, Some(inst), times).1) == Some(Some(me))
            <==> |times| >= (if inst.keepAlive.Missing? then 5 else 6)
  {
    AdmitsIff(inst, me);
    FrozenOwnerIsReplaced(STARTED, me, inst, times);
  }

  lemma {:induction false} AdmitsIff(inst: Instance, me: string)
    ensures Admits(inst, me) <==> !ShutsOut(inst, me) && !inst.nodeNames.NoProperty? && !inst.keepAlive.NullDate?
  {
  }
}
