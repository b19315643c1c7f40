/**
 The driver variants of the failover.  The C# clients (src/OPC-UA-Client/Redundancy.cs and its
 OPC-DA copy) and the Go programs (src/calculations/calculations.go, src/i104m/i104m.go) never
 reset the counter when the keep-alive is fresh, so it accumulates over the whole wait.
 The Go copies also leave it alone when they read their own name.
 */
module FailoverVariants {
  import opened Options
  import opened Failover

  /** What a poll finds in the document: the own name, or another node's name and keep-alive tag. */
  datatype Reading = Own | Other(tag: int)

  datatype Variant = JavaScript | CSharp | Go

  function StepJs(v: Node, r: Reading): Node {
    if r.Own? then v.(active := true, count := 0) else Standby(v, Some(r.tag))
  }

  function StepCumulative(resetOnOwn: bool, v: Node, r: Reading): Node {
    if r.Own? then v.(active := true, count := if resetOnOwn then 0 else v.count)
    else
      var before := if v.active then 0 else v.count;
      var count := if v.lastTag == Some(r.tag) then before + 1 else before;
      Node(true, count > COUNT_LIMIT, count, Some(r.tag))
  }

  function StepOf(kind: Variant, v: Node, r: Reading): Node {
    match kind
    case JavaScript => StepJs(v, r)
    case CSharp => StepCumulative(true, v, r)
    case Go => StepCumulative(false, v, r)
  }

  /** The static fields of a driver, updated by one pass of its redundancy loop. */
  class DriverRedundancy {
    const resetOnOwn: bool
    var active: bool
    var countKeepAliveUpdates: nat
    var lastActiveNodeKeepAliveTimeTag: Option<int>

    constructor (resetOnOwn: bool)
      ensures this.resetOnOwn == resetOnOwn && State() == STARTED
    {
      this.resetOnOwn := resetOnOwn;
      active := false;
      countKeepAliveUpdates := 0;
      lastActiveNodeKeepAliveTimeTag := None;
    }

    function State(): Node
      reads this
    {
      Node(true, active, countKeepAliveUpdates, lastActiveNodeKeepAliveTimeTag)
    }

    method ProcessInstance(activeNodeName: string, tag: int, me: string) returns (writesKeepAlive: bool)
      modifies this
      ensures State() == StepCumulative(resetOnOwn, old(State()), if activeNodeName == me then Own else Other(tag))
      ensures writesKeepAlive == State().active
    {
      if activeNodeName == me {
        active := true;
        if resetOnOwn {
          countKeepAliveUpdates := 0;
        }
      } else {
        if active {
          countKeepAliveUpdates := 0;
        }
        active := false;
        if lastActiveNodeKeepAliveTimeTag == Some(tag) {
          countKeepAliveUpdates := countKeepAliveUpdates + 1;
        }
        lastActiveNodeKeepAliveTimeTag := Some(tag);
        if countKeepAliveUpdates > COUNT_LIMIT {
          active := true;
        }
      }
      writesKeepAlive := active;
    }
  }

  /** State after a history of readings, starting from a fresh process. */
  function Watch(kind: Variant, h: seq<Reading>): Node {
    if h == [] then STARTED else StepOf(kind, Watch(kind, h[..|h| - 1]), h[|h| - 1])
  }

  /** Reading `k` is of another node's name and makes the process active. */
  ghost predicate TakesOverAt(kind: Variant, h: seq<Reading>, k: nat) {
    k < |h| && h[k].Other? && Watch(kind, h[..k + 1]).active
  }

  ghost predicate TakesOver(kind: Variant, h: seq<Reading>) {
    exists k: nat :: TakesOverAt(kind, h, k)
  }

  lemma {:induction false} PrefixTakesOver(kind: Variant, h: seq<Reading>)
    requires h != [] && TakesOver(kind, h[..|h| - 1])
    ensures TakesOver(kind, h)
  {
    var g := h[..|h| - 1];
    var k: nat :| TakesOverAt(kind, g, k);
    assert g[..k + 1] == h[..k + 1];
    assert TakesOverAt(kind, h, k);
  }

  lemma {:induction false} LastTakesOver(kind: Variant, h: seq<Reading>)
    requires h != [] && h[|h| - 1].Other? && Watch(kind, h).active
    ensures TakesOver(kind, h)
  {
    assert h[..|h| - 1 + 1] == h;
    assert TakesOverAt(kind, h, |h| - 1);
  }

  /** Until the cumulative counter fires, it is at least the resetting one and both nodes agree on everything else. */
  lemma {:induction false} CumulativeCountsAtLeast(kind: Variant, h: seq<Reading>)
    requires kind != JavaScript && !TakesOver(kind, h)
    ensures !TakesOver(JavaScript, h)
    ensures var js, cum := Watch(JavaScript, h), Watch(kind, h);
            && js.active == cum.active && js.lastTag == cum.lastTag
            && (!js.active ==> js.count <= cum.count)
    decreases |h|
  {
    if h != [] {
      var g := h[..|h| - 1];
      if TakesOver(kind, g) {
        PrefixTakesOver(kind, h);
      }
      CumulativeCountsAtLeast(kind, g);
      if h[|h| - 1].Other? && Watch(kind, h).active {
        LastTakesOver(kind, h);
      }
      assert h[..|h|] == h;
      if TakesOver(JavaScript, h) {
        var k: nat :| TakesOverAt(JavaScript, h, k);
        if k < |g| {
          assert g[..k + 1] == h[..k + 1];
          assert TakesOverAt(JavaScript, g, k);
        }
      }
    }
  }

  /** On every history, a cumulative variant takes over at the same poll as the reference, or earlier. */
  lemma {:induction false} CumulativeTakesOverNoLater(kind: Variant, h: seq<Reading>, k: nat)
    requires kind != JavaScript && TakesOverAt(JavaScript, h, k)
    ensures exists j :: 0 <= j <= k && TakesOverAt(kind, h, j)
  {
    var g := h[..k + 1];
    assert g[..k + 1] == g;
    assert TakesOverAt(JavaScript, g, k);
    if !TakesOver(kind, g) {
      CumulativeCountsAtLeast(kind, g);
    }
    var j: nat :| TakesOverAt(kind, g, j);
    assert g[..j + 1] == h[..j + 1];
    assert TakesOverAt(kind, h, j);
  }

  // ---------------------------------------------------------------- closed forms

  /** The tag a process knows: the last one it read under another name.  Reading the own name does not touch it. */
  function LastTag(h: seq<Reading>): Option<int> {
    if h == [] then None
    else if h[|h| - 1].Other? then Some(h[|h| - 1].tag)
    else LastTag(h[..|h| - 1])
  }

  /** Reading `j` repeats the tag known before it. */
  predicate IsRepeat(h: seq<Reading>, j: nat)
    requires j < |h|
  {
    h[j].Other? && LastTag(h[..j]) == Some(h[j].tag)
  }

  /** Where the present wait began: after the last reading of the own name. */
  function WaitStart(h: seq<Reading>): (a: nat)
    ensures a <= |h|
  {
    if h == [] then 0 else if h[|h| - 1].Own? then |h| else WaitStart(h[..|h| - 1])
  }

  /** How many readings from `a` on are repeats. */
  function RepeatsFrom(h: seq<Reading>, a: nat): nat {
    if |h| <= a then 0
    else RepeatsFrom(h[..|h| - 1], a) + (if IsRepeat(h, |h| - 1) then 1 else 0)
  }

  /** How many readings in a row, up to now, are repeats. */
  function RunLength(h: seq<Reading>): nat {
    if h == [] || !IsRepeat(h, |h| - 1) then 0 else RunLength(h[..|h| - 1]) + 1
  }

  function Counted(kind: Variant, h: seq<Reading>): nat {
    if kind == JavaScript then RunLength(h) else RepeatsFrom(h, WaitStart(h))
  }

  lemma {:induction false} PrefixOfFront(h: seq<Reading>, j: nat)
    requires h != [] && j <= |h| - 1
    ensures h[..|h| - 1][..j] == h[..j]
  {
  }

  lemma {:induction false} CountedStep(kind: Variant, h: seq<Reading>)
    requires h != []
    ensures var front, r := h[..|h| - 1], h[|h| - 1];
            Counted(kind, h) == if r.Own? then 0
                                else if LastTag(front) == Some(r.tag) then Counted(kind, front) + 1
                                else if kind == JavaScript then 0
                                else Counted(kind, front)
  {
  }

  /**
   On every history without a takeover the tag is the last one read, the process is active exactly after
   reading its own name, and otherwise the counter is the number of repeats: in a row for the reference,
   in the whole wait for the cumulative variants.
   */
  lemma {:induction false} CounterClosedForm(kind: Variant, h: seq<Reading>)
    requires !TakesOver(kind, h)
    ensures var v := Watch(kind, h);
            && v.lastTag == LastTag(h)
            && (v.active <==> h != [] && h[|h| - 1].Own?)
            && (!v.active ==> v.count == Counted(kind, h))
    ensures Counted(kind, h) <= COUNT_LIMIT
    decreases |h|
  {
    if h != [] {
      if TakesOver(kind, h[..|h| - 1]) {
        PrefixTakesOver(kind, h);
      }
      CounterClosedForm(kind, h[..|h| - 1]);
      CountedStep(kind, h);
      if h[|h| - 1].Other? && Watch(kind, h).active {
        LastTakesOver(kind, h);
      }
    }
  }

  lemma {:induction false} TakesOverAtPrefix(kind: Variant, h: seq<Reading>, n: nat)
    requires n <= |h| && TakesOver(kind, h[..n])
    ensures TakesOver(kind, h)
  {
    var k: nat :| TakesOverAt(kind, h[..n], k);
    assert h[..n][..k + 1] == h[..k + 1];
    assert TakesOverAt(kind, h, k);
  }

  /** A history holds a takeover exactly when the counted repeats pass the limit at some point of it. */
  lemma {:induction false} TakeoverWhenCounted(kind: Variant, h: seq<Reading>)
    ensures TakesOver(kind, h) <==> exists n :: 0 <= n <= |h| && Counted(kind, h[..n]) > COUNT_LIMIT
  {
    if n :| 0 <= n <= |h| && Counted(kind, h[..n]) > COUNT_LIMIT {
      if !TakesOver(kind, h[..n]) {
        CounterClosedForm(kind, h[..n]);
      }
      TakesOverAtPrefix(kind, h, n);
    }
    if TakesOver(kind, h) {
      FirstTakeover(kind, h);
    }
  }

  lemma {:induction false} FirstTakeover(kind: Variant, h: seq<Reading>)
    requires TakesOver(kind, h)
    ensures exists n :: 0 <= n <= |h| && Counted(kind, h[..n]) > COUNT_LIMIT
    decreases |h|
  {
    var k: nat :| TakesOverAt(kind, h, k);
    var g := h[..k];
    if TakesOver(kind, g) {
      FirstTakeover(kind, g);
      var n :| 0 <= n <= |g| && Counted(kind, g[..n]) > COUNT_LIMIT;
      assert g[..n] == h[..n];
    } else {
      CounterClosedForm(kind, g);
      assert h[..k + 1][..k] == g;
      CountedStep(kind, h[..k + 1]);
      assert Counted(kind, h[..k + 1]) > COUNT_LIMIT;
    }
  }

  // ---------------------------------------------------------------- when the reference takes over

  /** Five readings in a row, from `a` on, repeat one known tag. */
  ghost predicate FiveInARow(h: seq<Reading>, a: nat) {
    a + 5 <= |h| && LastTag(h[..a]).Some? && forall j :: a <= j < a + 5 ==> h[j] == Other(LastTag(h[..a]).value)
  }

  /** The last `r` readings repeat the tag known before them. */
  lemma {:induction false} RunLengthMeans(h: seq<Reading>, r: nat)
    requires r <= |h|
    ensures r <= RunLength(h)
            <==> r == 0 || (LastTag(h[..|h| - r]).Some?
                            && forall j :: |h| - r <= j < |h| ==> h[j] == Other(LastTag(h[..|h| - r]).value))
    decreases |h|
  {
    if r > 0 {
      var front, a := h[..|h| - 1], |h| - r;
      RunLengthMeans(front, r - 1);
      PrefixOfFront(h, a);
      assert front[..|front| - (r - 1)] == h[..a];
      assert forall j :: 0 <= j < |front| ==> front[j] == h[j];
      if r == 1 {
        assert h[..a] == front;
      } else {
        assert r - 1 <= RunLength(front) ==> LastTag(front) == LastTag(h[..a]);
      }
    }
  }

  lemma {:induction false} RunLengthBound(h: seq<Reading>)
    ensures RunLength(h) <= |h|
  {
    if h != [] {
      RunLengthBound(h[..|h| - 1]);
    }
  }

  /** The reference takes over exactly when five readings in a row repeat one known tag, whatever was read before. */
  lemma {:induction false} ReferenceTakesOverIff(h: seq<Reading>)
    ensures TakesOver(JavaScript, h) <==> exists a :: FiveInARow(h, a)
  {
    TakeoverWhenCounted(JavaScript, h);
    if n :| 0 <= n <= |h| && Counted(JavaScript, h[..n]) > COUNT_LIMIT {
      var g := h[..n];
      RunLengthBound(g);
      RunLengthMeans(g, 5);
      assert g[..n - 5] == h[..n - 5];
      assert forall j :: n - 5 <= j < n ==> h[j] == g[j];
      assert FiveInARow(h, n - 5);
    }
    if a: nat :| FiveInARow(h, a) {
      var g := h[..a + 5];
      assert g[..a] == h[..a];
      assert forall j :: a <= j < a + 5 ==> g[j] == h[j];
      RunLengthMeans(g, 5);
      assert Counted(JavaScript, h[..a + 5]) > COUNT_LIMIT;
    }
  }

  // ---------------------------------------------------------------- when a cumulative variant takes over

  /** Between `a` and `b` the own name is never read, and five readings in all repeat the tag known before them. */
  ghost predicate FiveInOneWait(h: seq<Reading>, a: nat, b: nat) {
    a <= b <= |h| && (forall j :: a <= j < b ==> h[j].Other?) && RepeatsFrom(h[..b], a) >= 5
  }

  lemma {:induction false} WaitHasNoOwn(h: seq<Reading>)
    ensures forall j :: WaitStart(h) <= j < |h| ==> h[j].Other?
  {
    if h != [] {
      WaitHasNoOwn(h[..|h| - 1]);
      assert forall j :: 0 <= j < |h| - 1 ==> h[..|h| - 1][j] == h[j];
    }
  }

  lemma {:induction false} WaitStartsBefore(h: seq<Reading>, a: nat)
    requires a <= |h| && forall j :: a <= j < |h| ==> h[j].Other?
    ensures WaitStart(h) <= a
    decreases |h|
  {
    if a < |h| {
      WaitStartsBefore(h[..|h| - 1], a);
    }
  }

  lemma {:induction false} EarlierStartCountsMore(h: seq<Reading>, a: nat, b: nat)
    requires a <= b
    ensures RepeatsFrom(h, b) <= RepeatsFrom(h, a)
    decreases |h|
  {
    if |h| > b {
      EarlierStartCountsMore(h[..|h| - 1], a, b);
    }
  }

  /**
   A cumulative variant takes over exactly when some wait holds five repeats in all, however many fresh tags
   lie between them.
   */
  lemma {:induction false} CumulativeTakesOverIff(kind: Variant, h: seq<Reading>)
    requires kind != JavaScript
    ensures TakesOver(kind, h) <==> exists a, b :: FiveInOneWait(h, a, b)
  {
    TakeoverWhenCounted(kind, h);
    if n :| 0 <= n <= |h| && Counted(kind, h[..n]) > COUNT_LIMIT {
      WaitHasNoOwn(h[..n]);
      assert forall j :: 0 <= j < n ==> h[..n][j] == h[j];
      assert FiveInOneWait(h, WaitStart(h[..n]), n);
    }
    if a: nat, b: nat :| FiveInOneWait(h, a, b) {
      var g := h[..b];
      assert forall j :: 0 <= j < b ==> g[j] == h[j];
      WaitStartsBefore(g, a);
      EarlierStartCountsMore(g, WaitStart(g), a);
      assert Counted(kind, h[..b]) > COUNT_LIMIT;
    }
  }

  // ---------------------------------------------------------------- histories of foreign readings only

  function Others(tags: seq<int>): (h: seq<Reading>)
    ensures |h| == |tags| && forall k :: 0 <= k < |h| ==> h[k] == Other(tags[k])
  {
    seq(|tags|, k requires 0 <= k < |tags| => Other(tags[k]))
  }

  lemma {:induction false} LastTagOfOthers(tags: seq<int>, k: nat)
    requires k <= |tags|
    ensures LastTag(Others(tags)[..k]) == if k == 0 then None else Some(tags[k - 1])
  {
    assert k > 0 ==> Others(tags)[..k][k - 1] == Other(tags[k - 1]);
  }

  ghost predicate SameSix(tags: seq<int>, k: int) {
    0 <= k <= |tags| - 6 && forall j :: k <= j < k + 6 ==> tags[j] == tags[k]
  }

  /** A standby that never read its own name takes over exactly when it reads some tag six times in a row. */
  lemma {:induction false} SixEqualReadings(tags: seq<int>)
    ensures TakesOver(JavaScript, Others(tags)) <==> exists k :: SameSix(tags, k)
  {
    var h := Others(tags);
    ReferenceTakesOverIff(h);
    if a: nat :| FiveInARow(h, a) {
      LastTagOfOthers(tags, a);
      assert forall j :: a <= j < a + 5 ==> tags[j] == tags[a - 1];
      assert SameSix(tags, a - 1);
    }
    if k :| SameSix(tags, k) {
      LastTagOfOthers(tags, k + 1);
      assert FiveInARow(h, k + 1);
    }
  }

  /** After reading its own name, a process already knows the tag, and five equal readings are enough. */
  lemma {:induction false} OwnReadingShortensTheWait(tag: int)
    ensures TakesOver(JavaScript, [Other(tag), Own] + Others([tag, tag, tag, tag, tag]))
  {
    var h := [Other(tag), Own] + Others([tag, tag, tag, tag, tag]);
    assert h[..2] == [Other(tag), Own] && [Other(tag), Own][..1] == [Other(tag)];
    assert LastTag(h[..2]) == LastTag([Other(tag)]) == Some(tag);
    ReferenceTakesOverIff(h);
    assert FiveInARow(h, 2);
  }

  /** An owner that renews its keep-alive between every second poll of a standby. */
  function Paired(n: nat): (tags: seq<int>)
    ensures |tags| == 2 * n && forall k :: 0 <= k < |tags| ==> tags[k] == k / 2
  {
    seq(2 * n, k => k / 2)
  }

  lemma {:induction false} PairedRepeats(n: nat, b: nat)
    requires b <= 2 * n
    ensures RepeatsFrom(Others(Paired(n))[..b], 0) == b / 2
    decreases b
  {
    if b > 0 {
      PairedRepeats(n, b - 1);
      var h := Others(Paired(n));
      assert h[..b][..b - 1] == h[..b - 1];
      LastTagOfOthers(Paired(n), b - 1);
    }
  }

  /**
   Such an owner is never replaced by the reference, and is replaced by a cumulative variant from the fifth
   renewal on.
   */
  lemma {:induction false} CumulativeReplacesALiveOwner(kind: Variant, n: nat)
    ensures TakesOver(kind, Others(Paired(n))) <==> kind != JavaScript && n >= 5
  {
    var tags, h := Paired(n), Others(Paired(n));
    if kind == JavaScript {
      SixEqualReadings(tags);
      forall k
        ensures !SameSix(tags, k)
      {
        assert 0 <= k <= |tags| - 6 ==> tags[k + 2] != tags[k];
      }
    } else {
      CumulativeTakesOverIff(kind, h);
      if n >= 5 {
        PairedRepeats(n, 2 * n);
        assert FiveInOneWait(h, 0, 2 * n);
      }
      forall a: nat, b: nat | FiveInOneWait(h, a, b)
        ensures n >= 5
      {
        EarlierStartCountsMore(h[..b], 0, a);
        PairedRepeats(n, b);
      }
    }
  }

  // ---------------------------------------------------------------- reading the own name

  /**
   The reference clears its counter when it takes over; the variants leave it at its limit until they are displaced.
   */
  lemma {:induction false} TakeoverLeavesCount(kind: Variant, h: seq<Reading>)
    ensures Watch(kind, h).count <= 5 && (!Watch(kind, h).active ==> Watch(kind, h).count <= 4)
    ensures h != [] && h[|h| - 1].Other? && Watch(kind, h).active
            ==> Watch(kind, h).count == if kind == JavaScript then 0 else 5
    decreases |h|
  {
    if h != [] {
      TakeoverLeavesCount(kind, h[..|h| - 1]);
    }
  }

  /** Only the Go copies leave the counter alone when they read their own name. */
  lemma {:induction false} OwnReading(v: Node)
    ensures StepOf(CSharp, v, Own) == v.(active := true, count := 0) == StepOf(JavaScript, v, Own)
    ensures StepOf(Go, v, Own) == v.(active := true)
  {
  }
}
