/**
 Timed behaviour of the failover (src/cs_data_processor/redundancy.js:103-135): how often an
 owner must renew its keep-alive so that no standby ever takes the role from it.
 Here every write is applied before the next event.
 */
module FailoverTiming {
  import opened Options
  import opened Failover

  datatype Event = Poll(n: string, t: int) | Offline(n: string, t: int) | Restart(n: string, t: int)

  datatype World = World(nodes: map<string, Node>, inst: Instance)

  function React(w: World, e: Event): World {
    if e.n !in w.nodes then w
    else match e
    case Poll(n, t) =>
      var o := Decide(w.nodes[n], n, Some(w.inst), t);
      World(w.nodes[n := o.node], if o.write.Some? then Apply(Some(w.inst), o.write.value).value else w.inst)
    case Offline(n, _) => w.(nodes := w.nodes[n := w.nodes[n].(active := false)])
    case Restart(n, _) => w.(nodes := w.nodes[n := STARTED])
  }

  /** The world after the first `i` events. */
  function After(w: World, evs: seq<Event>, i: nat): World
    requires i <= |evs|
  {
    if i == 0 then w else React(After(w, evs, i - 1), evs[i - 1])
  }

  /** Running, not active, and last read an older date or none. */
  predicate Expectant(node: Node, ms: int) {
    node.running && !node.active && (node.lastTag.Some? ==> node.lastTag.value < ms)
  }

  /**
   All nodes are allowed and the owner is named.  Everyone else waits, with any counter, and has not yet
   read the stored date, which is in the past of all events.
   */
  ghost predicate Steady(w: World, owner: string, evs: seq<Event>) {
    && owner in w.nodes && w.nodes[owner].running
    && w.inst.activeNodeName == Some(owner) && w.inst.keepAlive.Date?
    && (forall n :: n in w.nodes ==> Admits(w.inst, n))
    && (forall n :: n in w.nodes && n != owner ==> Expectant(w.nodes[n], w.inst.keepAlive.ms))
    && (forall k :: 0 <= k < |evs| ==> w.inst.keepAlive.ms < evs[k].t)
  }

  ghost predicate OwnerClockAdvances(evs: seq<Event>, owner: string) {
    forall i, j :: 0 <= i < j < |evs| && evs[i].Poll? && evs[i].n == owner && evs[j].Poll? && evs[j].n == owner
                   ==> evs[i].t < evs[j].t
  }

  /** Two polls of one standby are at least `period` apart. */
  ghost predicate Spaced(evs: seq<Event>, owner: string, period: int) {
    forall i, j :: 0 <= i < j < |evs| && evs[i].Poll? && evs[j].Poll? && evs[i].n == evs[j].n && evs[i].n != owner
                   ==> evs[j].t - evs[i].t >= period
  }

  ghost predicate OwnerPollsBetween(evs: seq<Event>, owner: string, i: int, j: int) {
    exists k :: 0 <= i < k < j <= |evs| && evs[k].Poll? && evs[k].n == owner
  }

  /** The owner renews its keep-alive between any two polls of a standby that are `window` or more apart. */
  ghost predicate Renewed(evs: seq<Event>, owner: string, window: int) {
    forall i, j ::
      0 <= i < j < |evs| && evs[i].Poll? && evs[j].Poll? && evs[i].n == evs[j].n && evs[i].n != owner
        && evs[j].t - evs[i].t >= window
      ==> OwnerPollsBetween(evs, owner, i, j)
  }

  /** The standby has read the present tag at polls `a` and `b` and `count` times in between. */
  ghost predicate Streak(evs: seq<Event>, owner: string, i: nat, n: string, count: nat, period: int, a: int, b: int) {
    && 0 <= a <= b < i <= |evs|
    && evs[a].Poll? && evs[a].n == n && evs[b].Poll? && evs[b].n == n
    && !OwnerPollsBetween(evs, owner, a, i)
    && evs[b].t - evs[a].t >= count * period
  }

  ghost predicate Waiting(w: World, evs: seq<Event>, owner: string, i: nat, n: string, period: int)
    requires n in w.nodes
  {
    var node := w.nodes[n];
    && node.running && !node.active
    && w.inst.keepAlive.Date?
    && (node.lastTag.Some? ==> node.lastTag.value <= w.inst.keepAlive.ms)
    && (node.lastTag == Some(w.inst.keepAlive.ms) ==> exists a, b :: Streak(evs, owner, i, n, node.count, period, a, b))
  }

  ghost predicate Calm(w: World, evs: seq<Event>, owner: string, i: nat, period: int) {
    && owner in w.nodes && w.nodes[owner].running
    && w.inst.activeNodeName == Some(owner) && w.inst.keepAlive.Date?
    && (forall n :: n in w.nodes ==> Admits(w.inst, n))
    && (forall k :: i <= k < |evs| && evs[k].Poll? && evs[k].n == owner ==> w.inst.keepAlive.ms < evs[k].t)
    && (forall n :: n in w.nodes && n != owner ==> Waiting(w, evs, owner, i, n, period))
  }

  /** A streak grows by one period at the next poll, and the owner's renewals keep it below the limit. */
  lemma {:induction false} StreakGrows(evs: seq<Event>, owner: string, i: nat, n: string, count: nat, period: int,
                                       window: int, a: int, b: int)
    requires 0 < period && window <= 5 * period && i < |evs| && n != owner
    requires Spaced(evs, owner, period) && Renewed(evs, owner, window)
    requires evs[i].Poll? && evs[i].n == n && Streak(evs, owner, i, n, count, period, a, b)
    ensures count < COUNT_LIMIT && Streak(evs, owner, i + 1, n, count + 1, period, a, i)
  {
    assert evs[i].t - evs[b].t >= period;
    assert evs[i].t - evs[a].t >= (count + 1) * period;
    assert evs[i].t - evs[a].t < window;
    assert count >= COUNT_LIMIT ==> (count + 1) * period >= 5 * period;
  }

  /** One poll of a standby never completes the count of five. */
  lemma {:induction false} StandbyPollKeepsWaiting(w: World, evs: seq<Event>, owner: string, i: nat, period: int,
                                                   window: int)
    requires 0 < period && window <= 5 * period && i < |evs|
    requires Spaced(evs, owner, period) && Renewed(evs, owner, window)
    requires Calm(w, evs, owner, i, period)
    requires evs[i].Poll? && evs[i].n in w.nodes && evs[i].n != owner
    ensures React(w, evs[i]).inst == w.inst && Waiting(React(w, evs[i]), evs, owner, i + 1, evs[i].n, period)
  {
    var n, tag := evs[i].n, w.inst.keepAlive.ms;
    assert Waiting(w, evs, owner, i, n, period);
    assert Admits(w.inst, n);
    var node := w.nodes[n];
    if node.lastTag == Some(tag) {
      var a, b :| Streak(evs, owner, i, n, node.count, period, a, b);
      StreakGrows(evs, owner, i, n, node.count, period, window, a, b);
    } else {
      assert Streak(evs, owner, i + 1, n, 0, period, i, i);
    }
  }

  lemma {:induction false} OthersKeepWaiting(w: World, evs: seq<Event>, owner: string, i: nat, period: int, m: string)
    requires i < |evs| && m in w.nodes && Waiting(w, evs, owner, i, m, period)
    requires !(evs[i].Poll? && evs[i].n == owner)
    ensures Waiting(w, evs, owner, i + 1, m, period)
  {
    var node := w.nodes[m];
    if node.lastTag == Some(w.inst.keepAlive.ms) {
      var a, b :| Streak(evs, owner, i, m, node.count, period, a, b);
      assert Streak(evs, owner, i + 1, m, node.count, period, a, b);
    }
  }

  lemma {:induction false} EventKeepsCalm(w: World, evs: seq<Event>, owner: string, i: nat, period: int, window: int)
    requires 0 < period && window <= 5 * period && i < |evs|
    requires OwnerClockAdvances(evs, owner) && Spaced(evs, owner, period) && Renewed(evs, owner, window)
    requires Calm(w, evs, owner, i, period)
    ensures Calm(React(w, evs[i]), evs, owner, i + 1, period)
  {
    var e, v := evs[i], React(w, evs[i]);
    if e.Poll? && e.n in w.nodes && e.n != owner {
      StandbyPollKeepsWaiting(w, evs, owner, i, period, window);
    }
    forall m | m in v.nodes && m != owner
      ensures Waiting(v, evs, owner, i + 1, m, period)
    {
      assert Waiting(w, evs, owner, i, m, period);
      if !(e.Poll? && e.n == owner) {
        OthersKeepWaiting(w, evs, owner, i, period, m);
      }
    }
  }

  /**
   If standbys poll at least `period` apart and the owner renews its keep-alive in every window
   of at most five periods, then in the whole run the owner stays named and nobody else is active.
   */
  lemma {:induction false} NoFalseTakeover(w: World, evs: seq<Event>, owner: string, i: nat, period: int, window: int)
    requires 0 < period && window <= 5 * period && i <= |evs|
    requires Steady(w, owner, evs) && OwnerClockAdvances(evs, owner)
    requires Spaced(evs, owner, period) && Renewed(evs, owner, window)
    ensures var v := After(w, evs, i);
            && v.inst.activeNodeName == Some(owner)
            && (forall n :: n in v.nodes && n != owner ==> !v.nodes[n].active)
    ensures Calm(After(w, evs, i), evs, owner, i, period)
  {
    if i > 0 {
      NoFalseTakeover(w, evs, owner, i - 1, period, window);
      EventKeepsCalm(After(w, evs, i - 1), evs, owner, i - 1, period, window);
    }
    var v := After(w, evs, i);
    assert forall n :: n in v.nodes && n != owner ==> Waiting(v, evs, owner, i, n, period);
  }

  function SixPolls(n: string, start: int, period: int): seq<Event> {
    seq(6, k => Poll(n, start + k * period))
  }

  /**
   Five periods is the exact bound: for a window one unit longer, some run meeting every other assumption loses
   the owner.
   */
  lemma {:induction false} FivePeriodsIsTight(owner: string, standby: string, period: int)
    requires 0 < period && owner != standby
    ensures var inst := Instance(false, Names([]), Some(owner), Date(0));
            var w := World(map[owner := STARTED, standby := STARTED], inst);
            var evs := SixPolls(standby, 1, period);
            && Steady(w, owner, evs) && OwnerClockAdvances(evs, owner)
            && Spaced(evs, owner, period) && Renewed(evs, owner, 5 * period + 1)
            && After(w, evs, 6).inst.activeNodeName == Some(standby)
  {
    var inst := Instance(false, Names([]), Some(owner), Date(0));
    var w := World(map[owner := STARTED, standby := STARTED], inst);
    var evs := SixPolls(standby, 1, period);
    forall i, j | 0 <= i < j < 6
      ensures period <= evs[j].t - evs[i].t <= 5 * period
    {
      assert evs[j].t - evs[i].t == (j - i) * period;
    }
    forall i: nat | i <= 5
      ensures After(w, evs, i).inst == inst && standby in After(w, evs, i).nodes
      ensures After(w, evs, i).nodes[standby] == if i == 0 then STARTED else Node(true, false, i - 1, Some(0))
    {
      BelowLimit(w, evs, standby, inst, i);
    }
  }

  lemma {:induction false} BelowLimit(w: World, evs: seq<Event>, n: string, inst: Instance, i: nat)
    requires i <= 5 && |evs| == 6 && forall k :: 0 <= k < 6 ==> evs[k].Poll? && evs[k].n == n
    requires n in w.nodes && w.nodes[n] == STARTED && w.inst == inst
    requires Admits(inst, n) && inst.activeNodeName != Some(n) && inst.keepAlive == Date(0)
    ensures After(w, evs, i).inst == inst && n in After(w, evs, i).nodes
    ensures After(w, evs, i).nodes[n] == if i == 0 then STARTED else Node(true, false, i - 1, Some(0))
  {
    if i > 0 {
      BelowLimit(w, evs, n, inst, i - 1);
    }
  }
}
