/**
 The cyclic calculation engine (src/calculations/calculations.go:436-1202): each cycle evaluates
 all calculated points on one snapshot and writes only the results that differ from it.
 */
module Calculations {
  import opened Options
  import opened Formulas

  datatype Calc = Calc(formula: int, idParcels: seq<int>)

  datatype Write = Write(id: int, val: real, invalid: bool)

  type Snapshot = map<int, Sample>

  /** A formula evaluator: anything that depends only on the parcels. */
  type Evaluator = (int, seq<Sample>) -> Result

  /** A point that was never read has the zero value of a Go map. */
  function At(s: Snapshot, id: int): Sample {
    if id in s then s[id] else Sample(0.0, false)
  }

  function Args(s: Snapshot, c: Calc): seq<Sample> {
    seq(|c.idParcels|, i requires 0 <= i < |c.idParcels| => At(s, c.idParcels[i]))
  }

  function Value(eval: Evaluator, s: Snapshot, c: Calc): Result {
    eval(c.formula, Args(s, c))
  }

  /** A calculated point is written when its formula is computed and the result differs from the snapshot. */
  predicate Due(eval: Evaluator, calcs: map<int, Calc>, s: Snapshot, id: int) {
    && id in calcs
    && Value(eval, s, calcs[id]).Computed?
    && Sample(Value(eval, s, calcs[id]).val, Value(eval, s, calcs[id]).invalid) != At(s, id)
  }

  /** The writes are exactly the due ones, each once, with the value of its formula. */
  ghost predicate WritesOf(eval: Evaluator, calcs: map<int, Calc>, s: Snapshot, opers: seq<Write>) {
    && (forall i, j :: 0 <= i < j < |opers| ==> opers[i].id != opers[j].id)
    && (forall id :: Due(eval, calcs, s, id) <==> exists i :: 0 <= i < |opers| && opers[i].id == id)
    && (forall i :: 0 <= i < |opers| ==>
          && Due(eval, calcs, s, opers[i].id)
          && Value(eval, s, calcs[opers[i].id]).val == opers[i].val
          && Value(eval, s, calcs[opers[i].id]).invalid == opers[i].invalid)
  }

  lemma {:induction false} NotEmpty(ids: set<int>)
    requires ids != {}
    ensures exists id :: id in ids
  {
    assert (forall id :: id !in ids) ==> ids == {};
  }

  /** Neither a panic nor a NaN. */
  predicate IsDefined(r: Result) {
    r.NotComputed? || r.Computed?
  }

  /** No calculation panics or gives NaN on this snapshot. */
  ghost predicate Defined(eval: Evaluator, calcs: map<int, Calc>, s: Snapshot) {
    forall id :: id in calcs ==> IsDefined(Value(eval, s, calcs[id]))
  }

  /** No calculation panics on this snapshot. */
  ghost predicate Survives(eval: Evaluator, calcs: map<int, Calc>, s: Snapshot) {
    forall id :: id in calcs ==> !Value(eval, s, calcs[id]).Panics?
  }

  /** The program's formulas; the timer, which has no parcels to depend on, is given its own result. */
  function FormulaEvaluator(sqrt: real -> real, timer: Result): Evaluator {
    (formula, a) => if formula == 8 then timer else Formula(sqrt, formula, a)
  }

  /**
   One cycle at the time `now`.  The order in which the map of calculations is visited is not fixed.
   There is no batch of writes when a formula panics.  NaN differs from everything, itself included,
   so it is written whatever is stored; those points are listed beside the writes of numbers.
   */
  method Cycle(sqrt: real -> real, calcs: map<int, Calc>, vals: Snapshot, now: real)
    returns (opers: Option<seq<Write>>, nans: set<int>)
    ensures opers.Some? <==> Survives(FormulaEvaluator(sqrt, Computed(now, false, false)), calcs, vals)
    ensures opers.Some? ==> WritesOf(FormulaEvaluator(sqrt, Computed(now, false, false)), calcs, vals, opers.value)
    ensures opers.Some? ==> nans == NansOf(FormulaEvaluator(sqrt, Computed(now, false, false)), calcs, vals, calcs.Keys)
  {
    ghost var eval := FormulaEvaluator(sqrt, Computed(now, false, false));
    var list: seq<Write> := [];
    var todo := calcs.Keys;
    nans := {};
    while todo != {}
      invariant todo <= calcs.Keys
      invariant WritesAmong(eval, calcs, vals, todo, list)
      invariant nans == NansOf(eval, calcs, vals, calcs.Keys - todo)
      invariant forall id :: id in calcs && id !in todo ==> !Value(eval, vals, calcs[id]).Panics?
      decreases todo
    {
      NotEmpty(todo);
      var id :| id in todo;
      var r: Result;
      if calcs[id].formula == 8 {
        r := Computed(now, false, false);
      } else {
        r := Evaluate(sqrt, calcs[id].formula, Args(vals, calcs[id]));
      }
      assert r == Value(eval, vals, calcs[id]);
      if r.Panics? {
        return None, {};
      }
      VisitedOneMore(eval, calcs, vals, todo, list, id);
      if r.Computed? && (r.val != At(vals, id).val || r.invalid != At(vals, id).invalid) {
        list := list + [Write(id, r.val, r.invalid)];
      } else if r.NotANumber? {
        nans := nans + {id};
      }
      todo := todo - {id};
    }
    assert calcs.Keys - todo == calcs.Keys;
    opers := Some(list);
  }

  /** The points among `ids` whose result is NaN. */
  function NansOf(eval: Evaluator, calcs: map<int, Calc>, s: Snapshot, ids: set<int>): set<int> {
    set id | id in ids && id in calcs && Value(eval, s, calcs[id]).NotANumber?
  }

  /** The writes are exactly the due ones among the points already visited. */
  ghost predicate WritesAmong(eval: Evaluator, calcs: map<int, Calc>, s: Snapshot, todo: set<int>, opers: seq<Write>) {
    && (forall i, j :: 0 <= i < j < |opers| ==> opers[i].id != opers[j].id)
    && (forall id :: id !in todo && Due(eval, calcs, s, id) ==> exists i :: 0 <= i < |opers| && opers[i].id == id)
    && (forall i :: 0 <= i < |opers| ==>
          && opers[i].id !in todo && Due(eval, calcs, s, opers[i].id)
          && Value(eval, s, calcs[opers[i].id]).val == opers[i].val
          && Value(eval, s, calcs[opers[i].id]).invalid == opers[i].invalid)
  }

  function WriteOf(id: int, r: Result): Write
    requires r.Computed?
  {
    Write(id, r.val, r.invalid)
  }

  lemma {:induction false} VisitedOneMore(eval: Evaluator, calcs: map<int, Calc>, s: Snapshot, todo: set<int>,
                                          opers: seq<Write>, id: int)
    requires id in todo && id in calcs && WritesAmong(eval, calcs, s, todo, opers)
    ensures Due(eval, calcs, s, id)
            ==> WritesAmong(eval, calcs, s, todo - {id}, opers + [WriteOf(id, Value(eval, s, calcs[id]))])
    ensures !Due(eval, calcs, s, id) ==> WritesAmong(eval, calcs, s, todo - {id}, opers)
  {
    if Due(eval, calcs, s, id) {
      var more := opers + [WriteOf(id, Value(eval, s, calcs[id]))];
      forall other | other !in todo - {id} && Due(eval, calcs, s, other)
        ensures exists i :: 0 <= i < |more| && more[i].id == other
      {
        if other == id {
          assert more[|opers|].id == id;
        } else {
          var i :| 0 <= i < |opers| && opers[i].id == other;
          assert more[i].id == other;
        }
      }
    }
  }

  /** The parcels of a calculation on a snapshot; a point that was never read counts as a valid zero. */
  function Parcels(s: Snapshot, ids: seq<int>): seq<Sample> {
    seq(|ids|, i requires 0 <= i < |ids| => if ids[i] in s then s[ids[i]] else Sample(0.0, false))
  }

  /**
   What makes a point due, on the formulas themselves: the timer has the present time, every other point its
   formula over its parcels.
   */
  lemma {:induction false} DueIff(sqrt: real -> real, now: real, calcs: map<int, Calc>, s: Snapshot, id: int)
    requires id in calcs && id in s
    ensures var r := if calcs[id].formula == 8 then Computed(now, false, false)
                     else Formula(sqrt, calcs[id].formula, Parcels(s, calcs[id].idParcels));
            && Value(FormulaEvaluator(sqrt, Computed(now, false, false)), s, calcs[id]) == r
            && (Due(FormulaEvaluator(sqrt, Computed(now, false, false)), calcs, s, id)
                <==> r.Computed? && (r.val != s[id].val || r.invalid != s[id].invalid))
  {
    assert Args(s, calcs[id]) == Parcels(s, calcs[id].idParcels);
  }

  /** For a point that is not stored, a valid zero is no change. */
  lemma {:induction false} DueWhenMissingIff(sqrt: real -> real, now: real, calcs: map<int, Calc>, s: Snapshot, id: int)
    requires id in calcs && id !in s
    ensures var r := Value(FormulaEvaluator(sqrt, Computed(now, false, false)), s, calcs[id]);
            Due(FormulaEvaluator(sqrt, Computed(now, false, false)), calcs, s, id)
            <==> r.Computed? && (r.val != 0.0 || r.invalid)
  {
  }

  /** The bulk write, once the data processor has applied it unconverted. */
  function ApplyWrites(s: Snapshot, opers: seq<Write>): Snapshot
    decreases |opers|
  {
    if opers == [] then s
    else
      var w := opers[|opers| - 1];
      var t := ApplyWrites(s, opers[..|opers| - 1]);
      if w.id in t then t[w.id := Sample(w.val, w.invalid)] else t
  }

  /** The store one cycle later, with no mention of any order. */
  function Next(eval: Evaluator, calcs: map<int, Calc>, s: Snapshot): Snapshot {
    map id | id in s :: if Due(eval, calcs, s, id) then Outcome(Value(eval, s, calcs[id])) else s[id]
  }

  lemma {:induction false} ApplyWritesAt(s: Snapshot, opers: seq<Write>)
    requires forall i, j :: 0 <= i < j < |opers| ==> opers[i].id != opers[j].id
    ensures ApplyWrites(s, opers).Keys == s.Keys
    ensures forall i :: 0 <= i < |opers| && opers[i].id in s
              ==> ApplyWrites(s, opers)[opers[i].id] == Sample(opers[i].val, opers[i].invalid)
    ensures forall id :: id in s && (forall i :: 0 <= i < |opers| ==> opers[i].id != id)
              ==> ApplyWrites(s, opers)[id] == s[id]
    decreases |opers|
  {
    if opers != [] {
      var front := opers[..|opers| - 1];
      ApplyWritesAt(s, front);
      assert forall i :: 0 <= i < |front| ==> front[i] == opers[i];
    }
  }

  /** Whatever order the map was visited in, the cycle leaves the same store. */
  lemma {:induction false} OrderDoesNotMatter(eval: Evaluator, calcs: map<int, Calc>, s: Snapshot, opers: seq<Write>)
    requires WritesOf(eval, calcs, s, opers)
    ensures ApplyWrites(s, opers) == Next(eval, calcs, s)
  {
    ApplyWritesAt(s, opers);
    var t := ApplyWrites(s, opers);
    forall id | id in s
      ensures t[id] == Next(eval, calcs, s)[id]
    {
      if Due(eval, calcs, s, id) {
        var i :| 0 <= i < |opers| && opers[i].id == id;
      }
    }
  }

  // ---------------------------------------------------------------- convergence

  /** Computed whatever the values of its parcels are, unless the result is undefined. */
  ghost predicate Active(eval: Evaluator, c: Calc) {
    forall a: seq<Sample> :: |a| == |c.idParcels| ==> !eval(c.formula, a).NotComputed?
  }

  /** Never computed: its stored value stays as it is. */
  ghost predicate Inert(eval: Evaluator, c: Calc) {
    forall a: seq<Sample> :: |a| == |c.idParcels| ==> eval(c.formula, a).NotComputed?
  }

  ghost predicate Computes(eval: Evaluator, calcs: map<int, Calc>, id: int) {
    id in calcs && Active(eval, calcs[id])
  }

  /** Every calculation is computed always or never, has a document, and only uses computed parcels of lower rank. */
  ghost predicate Acyclic(eval: Evaluator, calcs: map<int, Calc>, s: Snapshot, rank: map<int, nat>) {
    && (forall id :: id in calcs ==> id in s && (Active(eval, calcs[id]) || Inert(eval, calcs[id])))
    && (forall id :: Computes(eval, calcs, id) ==> id in rank)
    && (forall id, i ::
          Computes(eval, calcs, id) && 0 <= i < |calcs[id].idParcels| && Computes(eval, calcs, calcs[id].idParcels[i])
          ==> rank[calcs[id].idParcels[i]] < rank[id])
  }

  /**
   The evaluation along the dependencies: inputs as stored, calculated points from the evaluation of their
   parcels.
   */
  ghost function Topological(eval: Evaluator, calcs: map<int, Calc>, s: Snapshot, rank: map<int, nat>, id: int): Sample
    requires Acyclic(eval, calcs, s, rank)
    decreases if Computes(eval, calcs, id) then rank[id] + 1 else 0
  {
    if !Computes(eval, calcs, id) then At(s, id)
    else
      var c := calcs[id];
      var a := seq(|c.idParcels|,
                   i requires 0 <= i < |c.idParcels| => Topological(eval, calcs, s, rank, c.idParcels[i]));
      Outcome(eval(c.formula, a))
  }

  function Outcome(r: Result): Sample {
    if r.Computed? then Sample(r.val, r.invalid) else Sample(0.0, false)
  }

  lemma {:induction false} TopologicalFrom(eval: Evaluator, calcs: map<int, Calc>, s: Snapshot, rank: map<int, nat>,
                                           id: int, a: seq<Sample>)
    requires Acyclic(eval, calcs, s, rank) && Computes(eval, calcs, id)
    requires |a| == |calcs[id].idParcels|
    requires forall i :: 0 <= i < |a| ==> a[i] == Topological(eval, calcs, s, rank, calcs[id].idParcels[i])
    ensures Topological(eval, calcs, s, rank, id) == Outcome(eval(calcs[id].formula, a))
  {
    var c := calcs[id];
    assert a == seq(|c.idParcels|,
                    i requires 0 <= i < |c.idParcels| => Topological(eval, calcs, s, rank, c.idParcels[i]));
  }

  function Iterate(eval: Evaluator, calcs: map<int, Calc>, s: Snapshot, k: nat): Snapshot {
    if k == 0 then s else Next(eval, calcs, Iterate(eval, calcs, s, k - 1))
  }

  lemma {:induction false} IterateKeepsInputs(eval: Evaluator, calcs: map<int, Calc>, s: Snapshot, k: nat)
    ensures Iterate(eval, calcs, s, k).Keys == s.Keys
    ensures forall id :: id in s && (id in calcs ==> Inert(eval, calcs[id])) ==> Iterate(eval, calcs, s, k)[id] == s[id]
  {
    if k > 0 {
      IterateKeepsInputs(eval, calcs, s, k - 1);
      var t := Iterate(eval, calcs, s, k - 1);
      forall id | id in s && (id in calcs ==> Inert(eval, calcs[id]))
        ensures !Due(eval, calcs, t, id)
      {
        if id in calcs {
          assert |Args(t, calcs[id])| == |calcs[id].idParcels|;
        }
      }
    }
  }

  lemma {:induction false} NextValue(eval: Evaluator, calcs: map<int, Calc>, s: Snapshot, id: int)
    requires Computes(eval, calcs, id) && id in s && IsDefined(Value(eval, s, calcs[id]))
    ensures Value(eval, s, calcs[id]).Computed?
    ensures Next(eval, calcs, s)[id] == Outcome(Value(eval, s, calcs[id]))
  {
    assert |Args(s, calcs[id])| == |calcs[id].idParcels|;
  }

  /** The parcels of a point have their final values. */
  ghost predicate ParcelsSettled(eval: Evaluator, calcs: map<int, Calc>, s: Snapshot, rank: map<int, nat>, t: Snapshot,
                                 id: int)
    requires Acyclic(eval, calcs, s, rank) && id in calcs
  {
    forall i :: 0 <= i < |calcs[id].idParcels|
      ==> At(t, calcs[id].idParcels[i]) == Topological(eval, calcs, s, rank, calcs[id].idParcels[i])
  }

  lemma {:induction false} SettledFromParcels(eval: Evaluator, calcs: map<int, Calc>, s: Snapshot, rank: map<int, nat>,
                                              t: Snapshot, id: int)
    requires Acyclic(eval, calcs, s, rank) && Computes(eval, calcs, id) && id in t
    requires ParcelsSettled(eval, calcs, s, rank, t, id) && IsDefined(Value(eval, t, calcs[id]))
    ensures Next(eval, calcs, t)[id] == Topological(eval, calcs, s, rank, id)
  {
    TopologicalFrom(eval, calcs, s, rank, id, Args(t, calcs[id]));
    NextValue(eval, calcs, t, id);
  }

  lemma {:induction false} SameParcelsSameValue(eval: Evaluator, calcs: map<int, Calc>, s: Snapshot,
                                                rank: map<int, nat>,
                                                t: Snapshot, u: Snapshot, id: int)
    requires Acyclic(eval, calcs, s, rank) && id in calcs
    requires ParcelsSettled(eval, calcs, s, rank, t, id) && ParcelsSettled(eval, calcs, s, rank, u, id)
    ensures Value(eval, t, calcs[id]) == Value(eval, u, calcs[id])
  {
    assert Args(t, calcs[id]) == Args(u, calcs[id]);
  }

  lemma {:induction false} SettledOnce(eval: Evaluator, calcs: map<int, Calc>, s: Snapshot, rank: map<int, nat>,
                                       first: Snapshot, t: Snapshot, id: int)
    requires Acyclic(eval, calcs, s, rank) && Computes(eval, calcs, id) && id in t && Defined(eval, calcs, first)
    requires ParcelsSettled(eval, calcs, s, rank, first, id) && ParcelsSettled(eval, calcs, s, rank, t, id)
    ensures Next(eval, calcs, t)[id] == Topological(eval, calcs, s, rank, id)
  {
    SameParcelsSameValue(eval, calcs, s, rank, first, t, id);
    SettledFromParcels(eval, calcs, s, rank, t, id);
  }

  /** The ranks stay below `depth`, and nothing is undefined in the first `depth` cycles. */
  ghost predicate Settles(eval: Evaluator, calcs: map<int, Calc>, s: Snapshot, rank: map<int, nat>, depth: nat) {
    && Acyclic(eval, calcs, s, rank)
    && (forall id :: Computes(eval, calcs, id) ==> rank[id] < depth)
    && (forall j :: 0 <= j < depth ==> Defined(eval, calcs, Iterate(eval, calcs, s, j)))
  }

  lemma {:induction false} ParcelsSettleByRank(eval: Evaluator, calcs: map<int, Calc>, s: Snapshot, rank: map<int, nat>,
                                               depth: nat, id: int, k: nat)
    requires Settles(eval, calcs, s, rank, depth) && Computes(eval, calcs, id) && k >= rank[id]
    ensures ParcelsSettled(eval, calcs, s, rank, Iterate(eval, calcs, s, k), id)
    decreases k, 1
  {
    forall i | 0 <= i < |calcs[id].idParcels|
      ensures At(Iterate(eval, calcs, s, k), calcs[id].idParcels[i])
              == Topological(eval, calcs, s, rank, calcs[id].idParcels[i])
    {
      SettledByRank(eval, calcs, s, rank, depth, calcs[id].idParcels[i], k);
    }
  }

  /** A point of rank r has its final value after r + 1 cycles and keeps it. */
  lemma {:induction false} SettledByRank(eval: Evaluator, calcs: map<int, Calc>, s: Snapshot, rank: map<int, nat>,
                                         depth: nat, id: int, k: nat)
    requires Settles(eval, calcs, s, rank, depth)
    requires Computes(eval, calcs, id) ==> k > rank[id]
    ensures At(Iterate(eval, calcs, s, k), id) == Topological(eval, calcs, s, rank, id)
    decreases k, 0
  {
    if Computes(eval, calcs, id) {
      ParcelsSettleByRank(eval, calcs, s, rank, depth, id, rank[id]);
      ParcelsSettleByRank(eval, calcs, s, rank, depth, id, k - 1);
      SettledAfterParcels(eval, calcs, s, rank, depth, id, k);
    } else {
      IterateKeepsInputs(eval, calcs, s, k);
    }
  }

  lemma {:induction false} SettledAfterParcels(eval: Evaluator, calcs: map<int, Calc>, s: Snapshot, rank: map<int, nat>,
                                               depth: nat, id: int, k: nat)
    requires Settles(eval, calcs, s, rank, depth) && Computes(eval, calcs, id) && k > rank[id]
    requires ParcelsSettled(eval, calcs, s, rank, Iterate(eval, calcs, s, rank[id]), id)
    requires ParcelsSettled(eval, calcs, s, rank, Iterate(eval, calcs, s, k - 1), id)
    ensures At(Iterate(eval, calcs, s, k), id) == Topological(eval, calcs, s, rank, id)
  {
    IterateKeepsInputs(eval, calcs, s, k - 1);
    SettledOnce(eval, calcs, s, rank, Iterate(eval, calcs, s, rank[id]), Iterate(eval, calcs, s, k - 1), id);
  }

  /**
   With constant inputs and an acyclic graph of depth at most `depth`, the store equals the topological
   evaluation from cycle `depth` on, and later cycles write nothing.  The first `depth` cycles must not
   run into an undefined result; no later one can.
   */
  lemma {:induction false} Converges(eval: Evaluator, calcs: map<int, Calc>, s: Snapshot, rank: map<int, nat>,
                                     depth: nat, k: nat, opers: seq<Write>)
    requires Settles(eval, calcs, s, rank, depth)
    requires k >= depth && WritesOf(eval, calcs, Iterate(eval, calcs, s, k), opers)
    ensures Iterate(eval, calcs, s, k).Keys == s.Keys
    ensures forall id :: id in s ==> At(Iterate(eval, calcs, s, k), id) == Topological(eval, calcs, s, rank, id)
    ensures opers == []
  {
    var t := Iterate(eval, calcs, s, k);
    IterateKeepsInputs(eval, calcs, s, k);
    forall id | id in s
      ensures At(t, id) == Topological(eval, calcs, s, rank, id) && !Due(eval, calcs, t, id)
    {
      ConvergesAt(eval, calcs, s, rank, depth, k, id);
    }
    assert opers != [] ==> Due(eval, calcs, t, opers[0].id);
  }

  lemma {:induction false} ConvergesAt(eval: Evaluator, calcs: map<int, Calc>, s: Snapshot, rank: map<int, nat>,
                                       depth: nat, k: nat, id: int)
    requires Settles(eval, calcs, s, rank, depth) && k >= depth && id in s
    ensures At(Iterate(eval, calcs, s, k), id) == Topological(eval, calcs, s, rank, id)
    ensures !Due(eval, calcs, Iterate(eval, calcs, s, k), id)
  {
    SettledByRank(eval, calcs, s, rank, depth, id, k);
    SettledByRank(eval, calcs, s, rank, depth, id, k + 1);
    IterateKeepsInputs(eval, calcs, s, k);
    NotDueWhenUnchanged(eval, calcs, Iterate(eval, calcs, s, k), id);
  }

  lemma {:induction false} NotDueWhenUnchanged(eval: Evaluator, calcs: map<int, Calc>, t: Snapshot, id: int)
    requires id in t && Next(eval, calcs, t)[id] == t[id]
    ensures !Due(eval, calcs, t, id)
  {
  }

  /** From then on nothing is undefined either. */
  lemma {:induction false} StaysDefined(eval: Evaluator, calcs: map<int, Calc>, s: Snapshot, rank: map<int, nat>,
                                        depth: nat, k: nat)
    requires Settles(eval, calcs, s, rank, depth)
    ensures Defined(eval, calcs, Iterate(eval, calcs, s, k))
  {
    var t := Iterate(eval, calcs, s, k);
    forall id | id in calcs
      ensures IsDefined(Value(eval, t, calcs[id]))
    {
      assert |Args(t, calcs[id])| == |calcs[id].idParcels|;
      if k >= depth && Computes(eval, calcs, id) {
        var first := Iterate(eval, calcs, s, rank[id]);
        ParcelsSettleByRank(eval, calcs, s, rank, depth, id, rank[id]);
        ParcelsSettleByRank(eval, calcs, s, rank, depth, id, k);
        assert Defined(eval, calcs, first);
        SameParcelsSameValue(eval, calcs, s, rank, first, t, id);
      }
    }
  }

  /** The limit is the only store with the same inputs that a cycle leaves unchanged. */
  lemma {:induction false} FixpointIsUnique(eval: Evaluator, calcs: map<int, Calc>, s: Snapshot, rank: map<int, nat>,
                                            t: Snapshot, id: int)
    requires Acyclic(eval, calcs, s, rank) && Defined(eval, calcs, t)
    requires t.Keys == s.Keys && Next(eval, calcs, t) == t
    requires forall x :: x in s && !Computes(eval, calcs, x) ==> t[x] == s[x]
    ensures At(t, id) == Topological(eval, calcs, s, rank, id)
    decreases if Computes(eval, calcs, id) then rank[id] + 1 else 0
  {
    if Computes(eval, calcs, id) {
      forall i | 0 <= i < |calcs[id].idParcels|
        ensures At(t, calcs[id].idParcels[i]) == Topological(eval, calcs, s, rank, calcs[id].idParcels[i])
      {
        FixpointIsUnique(eval, calcs, s, rank, t, calcs[id].idParcels[i]);
      }
      SettledFromParcels(eval, calcs, s, rank, t, id);
    }
  }

  // ---------------------------------------------------------------- a part of the graph

  function Restrict(calcs: map<int, Calc>, region: set<int>): map<int, Calc> {
    map id | id in calcs && id in region :: calcs[id]
  }

  /** The calculated parcels of a region belong to it. */
  ghost predicate Closed(calcs: map<int, Calc>, region: set<int>) {
    forall id, i :: id in calcs && id in region && 0 <= i < |calcs[id].idParcels| && calcs[id].idParcels[i] in calcs
                    ==> calcs[id].idParcels[i] in region
  }

  /** Cycles in which the evaluator may change, as it does with the clock. */
  function RunCycles(evals: seq<Evaluator>, calcs: map<int, Calc>, s: Snapshot): Snapshot
    decreases |evals|
  {
    if evals == [] then s else Next(evals[|evals| - 1], calcs, RunCycles(evals[..|evals| - 1], calcs, s))
  }

  ghost predicate SameFormulas(e: Evaluator, eval: Evaluator, calcs: map<int, Calc>, region: set<int>) {
    forall id, a: seq<Sample> :: id in calcs && id in region ==> e(calcs[id].formula, a) == eval(calcs[id].formula, a)
  }

  lemma {:induction false} NextInside(e: Evaluator, eval: Evaluator, calcs: map<int, Calc>, region: set<int>,
                                      t: Snapshot, u: Snapshot, id: int)
    requires Closed(calcs, region) && SameFormulas(e, eval, calcs, region)
    requires t.Keys == u.Keys && forall x :: x in t && (x !in calcs || x in region) ==> t[x] == u[x]
    requires id in t && (id !in calcs || id in region)
    ensures Next(e, calcs, t)[id] == Next(eval, Restrict(calcs, region), u)[id]
  {
    if id in calcs {
      assert Args(t, calcs[id]) == Args(u, calcs[id]);
    }
  }

  /** What happens outside a closed region, NaN and timers included, does not matter inside. */
  lemma {:induction false} RegionIsIndependent(evals: seq<Evaluator>, eval: Evaluator, calcs: map<int, Calc>,
                                               region: set<int>, s: Snapshot)
    requires Closed(calcs, region) && forall j :: 0 <= j < |evals| ==> SameFormulas(evals[j], eval, calcs, region)
    ensures RunCycles(evals, calcs, s).Keys == Iterate(eval, Restrict(calcs, region), s, |evals|).Keys == s.Keys
    ensures forall id :: id in s && (id !in calcs || id in region)
              ==> RunCycles(evals, calcs, s)[id] == Iterate(eval, Restrict(calcs, region), s, |evals|)[id]
    decreases |evals|
  {
    if evals != [] {
      var front, e := evals[..|evals| - 1], evals[|evals| - 1];
      RegionIsIndependent(front, eval, calcs, region, s);
      var t, u := RunCycles(front, calcs, s), Iterate(eval, Restrict(calcs, region), s, |front|);
      forall id | id in s && (id !in calcs || id in region)
        ensures Next(e, calcs, t)[id] == Next(eval, Restrict(calcs, region), u)[id]
      {
        NextInside(e, eval, calcs, region, t, u, id);
      }
    }
  }

  /**
   Convergence point by point: a point whose calculated ancestors are acyclic, defined and no timers has its final
   value after rank + 1 cycles of the whole program, whatever the other points do.
   */
  lemma {:induction false} SettledLocally(evals: seq<Evaluator>, eval: Evaluator, calcs: map<int, Calc>,
                                          region: set<int>,
                                          s: Snapshot, rank: map<int, nat>, depth: nat, id: int)
    requires Closed(calcs, region) && forall j :: 0 <= j < |evals| ==> SameFormulas(evals[j], eval, calcs, region)
    requires Settles(eval, Restrict(calcs, region), s, rank, depth) && id in s && (id !in calcs || id in region)
    requires Computes(eval, Restrict(calcs, region), id) ==> |evals| > rank[id]
    ensures id in RunCycles(evals, calcs, s)
    ensures RunCycles(evals, calcs, s)[id] == Topological(eval, Restrict(calcs, region), s, rank, id)
  {
    RegionIsIndependent(evals, eval, calcs, region, s);
    SettledByRank(eval, Restrict(calcs, region), s, rank, depth, id, |evals|);
  }

  /** And from then on it is not written. */
  lemma {:induction false} QuietLocally(evals: seq<Evaluator>, eval: Evaluator, calcs: map<int, Calc>, region: set<int>,
                                        s: Snapshot, rank: map<int, nat>, depth: nat, id: int)
    requires Closed(calcs, region) && forall j :: 0 <= j < |evals| ==> SameFormulas(evals[j], eval, calcs, region)
    requires Settles(eval, Restrict(calcs, region), s, rank, depth) && id in s && (id !in calcs || id in region)
    requires evals != [] && (Computes(eval, Restrict(calcs, region), id) ==> |evals| - 1 > rank[id])
    ensures !Due(evals[|evals| - 1], calcs, RunCycles(evals[..|evals| - 1], calcs, s), id)
  {
    SettledLocally(evals, eval, calcs, region, s, rank, depth, id);
    SettledLocally(evals[..|evals| - 1], eval, calcs, region, s, rank, depth, id);
    NotDueWhenUnchanged(evals[|evals| - 1], calcs, RunCycles(evals[..|evals| - 1], calcs, s), id);
  }

  /** A region without timers is the same at all times. */
  lemma {:induction false} ClockOutside(sqrt: real -> real, now: Result, later: Result, calcs: map<int, Calc>,
                                        region: set<int>)
    requires forall id :: id in calcs && id in region ==> calcs[id].formula != 8
    ensures SameFormulas(FormulaEvaluator(sqrt, later), FormulaEvaluator(sqrt, now), calcs, region)
  {
  }

  /** Every formula of the program is computed always or never, by its number and its number of parcels. */
  lemma {:induction false} FormulasAreActiveOrInert(sqrt: real -> real, timer: Result, c: Calc)
    ensures Active(FormulaEvaluator(sqrt, timer), c) || Inert(FormulaEvaluator(sqrt, timer), c)
  {
    var eval := FormulaEvaluator(sqrt, timer);
    var zero := seq(|c.idParcels|, _ => Sample(0.0, false));
    forall a: seq<Sample> | |a| == |c.idParcels|
      ensures eval(c.formula, a).NotComputed? == eval(c.formula, zero).NotComputed?
    {
      if c.formula != 8 {
        ComputedByArity(sqrt, c.formula, a, zero);
      }
    }
  }

  /** The timer is written in every cycle that finds another second stored, so it never settles. */
  lemma {:induction false} TimerIsDueIff(sqrt: real -> real, now: real, calcs: map<int, Calc>, s: Snapshot, id: int)
    requires id in calcs && calcs[id].formula == 8
    ensures Due(FormulaEvaluator(sqrt, Computed(now, false, false)), calcs, s, id) <==> At(s, id) != Sample(now, false)
  {
  }

  lemma {:induction false} NegatedSum(sqrt: real -> real, timer: Result, v: real)
    ensures FormulaEvaluator(sqrt, timer)(10, [Sample(v, false)]) == Computed(-v, false, false)
  {
    var a := [Sample(v, false)];
    assert a[..0] == [];
    assert Sum(a) == Sum(a[..0]) + v;
    LoopFormulasHaveNoArity(10);
    assert !AnyInvalid(a);
    assert Formula(sqrt, 10, a) == LoopFormula(10, a);
  }

  /** A point that is the negative sum of itself. */
  const SELF: map<int, Calc> := map[1 := Calc(10, [1])]

  function Alone(v: real): Snapshot {
    map[1 := Sample(v, false)]
  }

  lemma {:induction false} SelfStep(sqrt: real -> real, timer: Result, v: real)
    requires v != 0.0
    ensures var eval, s := FormulaEvaluator(sqrt, timer), Alone(v);
            Due(eval, SELF, s, 1) && Next(eval, SELF, s) == Alone(-v)
  {
    var eval, s := FormulaEvaluator(sqrt, timer), Alone(v);
    assert Args(s, SELF[1]) == [Sample(v, false)];
    NegatedSum(sqrt, timer, v);
    assert Value(eval, s, SELF[1]) == Computed(-v, false, false);
  }

  function Swing(k: nat): real {
    if k % 2 == 0 then 1.0 else -1.0
  }

  lemma {:induction false} Swings(eval: Evaluator, calcs: map<int, Calc>, k: nat)
    requires forall v :: v != 0.0 ==> Next(eval, calcs, Alone(v)) == Alone(-v)
    ensures Iterate(eval, calcs, Alone(1.0), k) == Alone(Swing(k))
  {
    if k > 0 {
      Swings(eval, calcs, k - 1);
      assert Swing(k) == -Swing(k - 1);
    }
  }

  /** Without acyclicity there is no limit: such a point changes sign in every cycle and is written in every cycle. */
  lemma {:induction false} SelfReferenceOscillates(sqrt: real -> real, timer: Result, k: nat)
    ensures var t := Iterate(FormulaEvaluator(sqrt, timer), SELF, Alone(1.0), k);
            t == Alone(Swing(k)) && Due(FormulaEvaluator(sqrt, timer), SELF, t, 1)
  {
    var eval := FormulaEvaluator(sqrt, timer);
    forall v | v != 0.0
      ensures Next(eval, SELF, Alone(v)) == Alone(-v)
    {
      SelfStep(sqrt, timer, v);
    }
    Swings(eval, SELF, k);
    SelfStep(sqrt, timer, Swing(k));
  }
}
