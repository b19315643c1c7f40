/**
 The formulas of the calculation process (src/calculations/calculations.go:489-1154) over reals.
 A formula depends only on the values and validity of its parcels.
 */
module Formulas {
  import opened Options

  datatype Sample = Sample(val: real, invalid: bool)

  /** `NotComputed` is `ok == false`, `Panics` an index out of range, and `NotANumber` a computed NaN. */
  datatype Result =
    | NotComputed
    | Panics
    | NotANumber(invalid: bool)
    | Computed(val: real, invalid: bool, transient: bool)

  function PowerOfTwo(n: nat): real {
    if n == 0 then 1.0 else 2.0 * PowerOfTwo(n - 1)
  }

  /** `math.MaxFloat64`: all bits of the mantissa, at the greatest exponent. */
  const MAX_FLOAT64: real := (PowerOfTwo(53) - 1.0) * PowerOfTwo(971)

  predicate AnyInvalid(a: seq<Sample>) {
    exists i :: 0 <= i < |a| && a[i].invalid
  }

  predicate AnyNonZero(a: seq<Sample>) {
    exists i :: 0 <= i < |a| && a[i].val != 0.0
  }

  predicate AllNonZero(a: seq<Sample>) {
    forall i :: 0 <= i < |a| ==> a[i].val != 0.0
  }

  function Sum(a: seq<Sample>): real
    decreases |a|
  {
    if a == [] then 0.0 else Sum(a[..|a| - 1]) + a[|a| - 1].val
  }

  function Highest(a: seq<Sample>): real
    decreases |a|
  {
    if a == [] then -MAX_FLOAT64
    else if a[|a| - 1].val > Highest(a[..|a| - 1]) then a[|a| - 1].val else Highest(a[..|a| - 1])
  }

  function Lowest(a: seq<Sample>): real
    decreases |a|
  {
    if a == [] then MAX_FLOAT64
    else if a[|a| - 1].val < Lowest(a[..|a| - 1]) then a[|a| - 1].val else Lowest(a[..|a| - 1])
  }

  /** The last valid parcel, or the first parcel when none is valid. */
  function Choice(a: seq<Sample>): Sample
    requires a != []
    decreases |a|
  {
    if !a[|a| - 1].invalid then a[|a| - 1]
    else if |a| == 1 then a[0]
    else Choice(a[..|a| - 1])
  }

  function Terms(plus: nat, minus: nat): seq<real> {
    seq(plus, _ => 1.0) + seq(minus, _ => -1.0)
  }

  /**
   Coefficients of the formulas that are signed sums of a fixed number of parcels.  Formulas 13 and 5022 are as
   coded, not as commented.
   */
  function Coefficients(formula: int): Option<seq<real>> {
    match formula
    case 11 => Some(Terms(23, 0) + [0.72])
    case 13 => Some(Terms(8, 1) + Terms(3, 0) + [0.52] + Terms(2, 2) + Terms(5, 0) + [0.0, 0.0] + Terms(9, 0) + [0.2])
    case 14 => Some([10.0 / 6.0])
    case 15 => Some(Terms(1, 1))
    case 16 => Some(Terms(1, 2))
    case 17 => Some(Terms(1, 3))
    case 18 => Some(Terms(1, 5))
    case 19 => Some(Terms(2, 1))
    case 20 => Some(Terms(3, 3))
    case 21 => Some(Terms(4, 5))
    case 22 => Some(Terms(6, 3))
    case 23 => Some(Terms(10, 1))
    case 24 => Some(Terms(3, 6))
    case 200 => Some(Terms(1, 7))
    case 201 => Some(Terms(8, 3))
    case 202 => Some([60.0, 1.0])
    case 204 => Some([0.5])
    case 205 => Some(Terms(2, 3))
    case 206 => Some(Terms(1, 8))
    case 207 => Some(Terms(2, 4))
    case 208 => Some(Terms(1, 4))
    case 209 => Some(Terms(2, 7))
    case 210 => Some(Terms(1, 6))
    case 211 => Some(Terms(5, 4))
    case 213 => Some(Terms(3, 1))
    case 214 => Some(Terms(4, 1))
    case 215 => Some(Terms(2, 2))
    case 217 => Some(Terms(5, 1))
    case 222 => Some(Terms(3, 4))
    case 223 => Some(Terms(3, 5))
    case 224 => Some(Terms(6, 1))
    case 226 => Some(Terms(2, 6))
    case 227 => Some(Terms(3, 2))
    case 228 => Some(Terms(3, 9))
    case 229 => Some(Terms(9, 3))
    case 230 => Some(Terms(9, 1))
    case 232 => Some(Terms(5, 3))
    case 233 => Some(Terms(7, 4))
    case 680 => Some(Terms(3, 2))
    case 5000 => Some(Terms(3, 1) + [-0.6, 1.0])
    case 5022 => Some(Terms(2, 0))
    case 5041 => Some(Terms(2, 1) + Terms(1, 1))
    case 5043 => Some(Terms(4, 2) + Terms(1, 2))
    case 5172 => Some([-0.72])
    case 5173 => Some([0.38])
    case 5174 => Some([0.14])
    case 5406 => Some(Terms(0, 1) + Terms(5, 2) + Terms(3, 0))
    case 5711 => Some(Terms(0, 4))
    case 7374 => Some(Terms(1, 11))
    case 8055 => Some(Terms(2, 6))
    case 25673 => Some(Terms(1, 1))
    case _ => None
  }

  function Constant(formula: int): real {
    if formula == 13 then -1.0 else 0.0
  }

  function SignedSum(cs: seq<real>, a: seq<Sample>): real
    requires |cs| == |a|
    decreases |a|
  {
    if a == [] then 0.0 else SignedSum(cs[..|a| - 1], a[..|a| - 1]) + cs[|a| - 1] * a[|a| - 1].val
  }

  /** The number of parcels a fixed-arity formula insists on. */
  function Arity(formula: int): Option<nat> {
    if formula in {5, 231} then Some(1)
    else if formula in {2, 3, 9, 26, 54, 55, 220, 221} then Some(2)
    else if formula in {1, 203, 216, 218, 219} then Some(3)
    else if Coefficients(formula).Some? then Some(|Coefficients(formula).value|)
    else None
  }

  function Flag(b: bool): real {
    if b then 1.0 else 0.0
  }

  /** The formulas that loop over any number of parcels. */
  function LoopFormula(formula: int, a: seq<Sample>): Result {
    match formula
    case 4 => Computed(Sum(a), AnyInvalid(a), false)
    case 6 => Computed(Flag(AllNonZero(a)), AnyInvalid(a), false)
    case 7 | 500 => Computed(Flag(AnyNonZero(a)), AnyInvalid(a), false)
    case 10 => Computed(-Sum(a), AnyInvalid(a), false)
    case 50 | 51 => if a == [] then Panics else Computed(Choice(a).val, Choice(a).invalid, false)
    case 52 => Computed(Flag(exists i :: 0 <= i < |a| && !a[i].invalid), false, false)
    case 53 => Computed(Highest(a) - Lowest(a), AnyInvalid(a), false)
    case _ => NotComputed
  }

  function Division(x: real, y: real): real {
    if y != 0.0 then x / y
    else if x == 0.0 then 0.0
    else if x > 0.0 then MAX_FLOAT64 else -MAX_FLOAT64
  }

  /** The formulas of two or three parcels that are not plain sums.  `sqrt` stands for the library's square root. */
  function FixedFormula(sqrt: real -> real, formula: int, a: seq<Sample>): Result
    requires Arity(formula) == Some(|a|)
  {
    var bad := AnyInvalid(a);
    match formula
    case 1 =>
      var s := sqrt(a[0].val * a[0].val + a[1].val * a[1].val);
      Computed(if a[2].val > 0.0 then 577.35027 * s / a[2].val else 0.0, bad, false)
    case 2 =>
      var d := sqrt(a[0].val * a[0].val + a[1].val * a[1].val);
      if d == 0.0 then NotANumber(bad) else Computed(a[0].val / d, bad, false)
    case 3 => Computed(sqrt(a[0].val * a[0].val + a[1].val * a[1].val), bad, false)
    case 5 => if a[0].val < 0.0 then NotANumber(bad) else Computed(sqrt(a[0].val), bad, false)
    case 9 => Computed(a[0].val * a[1].val * sqrt(3.0) / 1000.0, bad, false)
    case 26 =>
      var m := if a[0].val < 0.0 then -a[0].val else a[0].val;
      Computed(if m <= 0.5 then 1.0 else if m > 1.4 then 0.0 else a[1].val, bad, false)
    case 54 =>
      var equal := a[0].val == a[1].val;
      Computed(if a[0].val == 0.0 && a[1].val != 0.0 then 0.0
               else if a[0].val != 0.0 && a[1].val == 0.0 then 1.0
               else a[0].val,
               equal || bad, equal)
    case 55 => Computed(Division(a[0].val, a[1].val), bad, false)
    case 203 => if a[0].val != 0.0 then Computed(a[2].val, a[2].invalid, false)
                else Computed(a[1].val, a[1].invalid, false)
    case 216 => Computed(Flag(a[1].val <= a[0].val <= a[2].val), a[0].invalid, false)
    case 218 => Computed(Flag(a[1].val < a[0].val <= a[2].val), a[0].invalid, false)
    case 219 => Computed(Flag(a[1].val <= a[0].val < a[2].val), a[0].invalid, false)
    case 220 => Computed(if a[1].val < a[0].val then a[1].val else a[0].val, bad, false)
    case 221 => Computed(if a[1].val > a[0].val then a[1].val else a[0].val, bad, false)
    case 231 => Computed(if a[0].val > 0.0 then 0.0 else a[0].val, bad, false)
    case _ =>
      if Coefficients(formula).Some?
      then Computed(SignedSum(Coefficients(formula).value, a) + Constant(formula), bad, false)
      else NotComputed
  }

  /** The whole switch.  The timer, formula 8, reads the clock and is not a function of its parcels. */
  function Formula(sqrt: real -> real, formula: int, a: seq<Sample>): Result
    requires formula != 8
  {
    if formula == 54 && a == [] then Panics
    else if formula == 225 then (if |a| <= 1 then Computed(1.0, false, false) else NotComputed)
    else if Arity(formula).None? then LoopFormula(formula, a)
    else if Arity(formula).value == |a| then FixedFormula(sqrt, formula, a)
    else NotComputed
  }

  // ---------------------------------------------------------------- the loops of the program

  method SumLoop(a: seq<Sample>, sign: real) returns (val: real, invalid: bool)
    ensures val == sign * Sum(a) && invalid == AnyInvalid(a)
  {
    val, invalid := 0.0, false;
    for i := 0 to |a|
      invariant val == sign * Sum(a[..i]) && invalid == AnyInvalid(a[..i])
    {
      assert a[..i + 1][..i] == a[..i];
      val := val + sign * a[i].val;
      invalid := invalid || a[i].invalid;
    }
    assert a[..|a|] == a;
  }

  method AndLoop(a: seq<Sample>) returns (val: real, invalid: bool)
    ensures val == Flag(forall i :: 0 <= i < |a| ==> a[i].val != 0.0)
            && (invalid <==> exists i :: 0 <= i < |a| && a[i].invalid)
  {
    val, invalid := 1.0, false;
    for i := 0 to |a|
      invariant val == Flag(forall j :: 0 <= j < i ==> a[j].val != 0.0)
      invariant invalid <==> exists j :: 0 <= j < i && a[j].invalid
    {
      if a[i].val == 0.0 {
        val := 0.0;
      }
      invalid := invalid || a[i].invalid;
    }
  }

  method OrLoop(a: seq<Sample>) returns (val: real, invalid: bool)
    ensures val == Flag(exists i :: 0 <= i < |a| && a[i].val != 0.0)
            && (invalid <==> exists i :: 0 <= i < |a| && a[i].invalid)
  {
    val, invalid := 0.0, false;
    for i := 0 to |a|
      invariant val == Flag(exists j :: 0 <= j < i && a[j].val != 0.0)
      invariant invalid <==> exists j :: 0 <= j < i && a[j].invalid
    {
      if a[i].val != 0.0 {
        val := 1.0;
      }
      invalid := invalid || a[i].invalid;
    }
  }

  /** Parcel `k` is the last valid one among the first `n`. */
  predicate LastValid(a: seq<Sample>, n: int, k: int)
    requires n <= |a|
  {
    0 <= k < n && !a[k].invalid && forall i :: k < i < n ==> a[i].invalid
  }

  /** The choice is the last valid parcel, and the first one when none is valid. */
  lemma {:induction false} ChoiceIsLast(a: seq<Sample>)
    requires a != []
    ensures var c := Choice(a);
            && (c.invalid <==> forall i :: 0 <= i < |a| ==> a[i].invalid)
            && (c.invalid ==> c == a[0])
            && (!c.invalid ==> exists k :: LastValid(a, |a|, k) && c.val == a[k].val)
    decreases |a|
  {
    var n := |a| - 1;
    if a[n].invalid && n > 0 {
      ChoiceIsLast(a[..n]);
      assert forall i :: 0 <= i < n ==> a[..n][i] == a[i];
      if !Choice(a[..n]).invalid {
        var k :| LastValid(a[..n], n, k) && Choice(a[..n]).val == a[..n][k].val;
        assert LastValid(a, |a|, k);
      }
    } else {
      assert !a[n].invalid ==> LastValid(a, |a|, n);
    }
  }

  /** Keeps overwriting, so the last valid parcel wins. */
  method ChoiceLoop(a: seq<Sample>) returns (val: real, invalid: bool)
    requires a != []
    ensures Sample(val, invalid) == Choice(a)
    ensures invalid <==> forall i :: 0 <= i < |a| ==> a[i].invalid
    ensures !invalid ==> exists k :: LastValid(a, |a|, k) && val == a[k].val
  {
    invalid, val := a[0].invalid, a[0].val;
    for i := 0 to |a|
      invariant Sample(val, invalid) == if i == 0 then a[0] else Choice(a[..i])
    {
      assert i > 0 ==> a[..i + 1][..i] == a[..i];
      if !a[i].invalid {
        val := a[i].val;
        invalid := false;
      }
    }
    assert a[..|a|] == a;
    ChoiceIsLast(a);
  }

  method AnyOkLoop(a: seq<Sample>) returns (val: real)
    ensures val == Flag(exists i :: 0 <= i < |a| && !a[i].invalid)
  {
    val := 0.0;
    for i := 0 to |a|
      invariant val == Flag(exists j :: 0 <= j < i && !a[j].invalid)
    {
      if !a[i].invalid {
        val := 1.0;
      }
    }
  }

  method SpanLoop(a: seq<Sample>) returns (val: real, invalid: bool)
    ensures val == Highest(a) - Lowest(a) && invalid == AnyInvalid(a)
  {
    var max, min := -MAX_FLOAT64, MAX_FLOAT64;
    invalid := false;
    for i := 0 to |a|
      invariant max == Highest(a[..i]) && min == Lowest(a[..i]) && invalid == AnyInvalid(a[..i])
    {
      assert a[..i + 1][..i] == a[..i];
      if a[i].val > max {
        max := a[i].val;
      }
      if a[i].val < min {
        min := a[i].val;
      }
      invalid := invalid || a[i].invalid;
    }
    assert a[..|a|] == a;
    val := max - min;
  }

  method EvaluateLoop(formula: int, a: seq<Sample>) returns (r: Result)
    ensures r == LoopFormula(formula, a)
  {
    match formula {
      case 4 =>
        var val, invalid := SumLoop(a, 1.0);
        r := Computed(val, invalid, false);
      case 6 =>
        var val, invalid := AndLoop(a);
        r := Computed(val, invalid, false);
      case 7 | 500 =>
        var val, invalid := OrLoop(a);
        r := Computed(val, invalid, false);
      case 10 =>
        var val, invalid := SumLoop(a, -1.0);
        r := Computed(val, invalid, false);
      case 50 | 51 =>
        if a == [] {
          return Panics;
        }
        var val, invalid := ChoiceLoop(a);
        r := Computed(val, invalid, false);
      case 52 =>
        var val := AnyOkLoop(a);
        r := Computed(val, false, false);
      case 53 =>
        var val, invalid := SpanLoop(a);
        r := Computed(val, invalid, false);
      case _ => r := NotComputed;
    }
  }

  lemma {:induction false} LoopFormulasHaveNoArity(formula: int)
    requires formula in {4, 6, 7, 10, 50, 51, 52, 53, 500}
    ensures Arity(formula) == None
  {
  }

  /** One pass of the switch for one calculated point. */
  method Evaluate(sqrt: real -> real, formula: int, a: seq<Sample>) returns (r: Result)
    requires formula != 8
    ensures r == Formula(sqrt, formula, a)
  {
    if formula in {4, 6, 7, 10, 50, 51, 52, 53, 500} {
      LoopFormulasHaveNoArity(formula);
      r := EvaluateLoop(formula, a);
    } else {
      r := Formula(sqrt, formula, a);
    }
  }

  // ---------------------------------------------------------------- properties of the switch

  lemma {:induction false} ExtremesBound(a: seq<Sample>)
    requires a != [] && forall i :: 0 <= i < |a| ==> -MAX_FLOAT64 <= a[i].val <= MAX_FLOAT64
    ensures exists i :: 0 <= i < |a| && a[i].val == Highest(a)
    ensures exists j :: 0 <= j < |a| && a[j].val == Lowest(a)
    ensures forall i :: 0 <= i < |a| ==> Lowest(a) <= a[i].val <= Highest(a)
    decreases |a|
  {
    var b := a[..|a| - 1];
    if b != [] {
      ExtremesBound(b);
      var i :| 0 <= i < |b| && b[i].val == Highest(b);
      var j :| 0 <= j < |b| && b[j].val == Lowest(b);
      assert a[i] == b[i] && a[j] == b[j];
      assert forall k :: 0 <= k < |b| ==> a[k] == b[k];
    }
    assert a[|a| - 1].val == Highest(a) || Highest(a) == Highest(b);
  }

  /** The span formula is the largest difference between two parcels. */
  lemma {:induction false} SpanIsLargestDifference(sqrt: real -> real, a: seq<Sample>)
    requires a != [] && forall i :: 0 <= i < |a| ==> -MAX_FLOAT64 <= a[i].val <= MAX_FLOAT64
    ensures var r := Formula(sqrt, 53, a);
            && r.Computed?
            && (exists i, j :: 0 <= i < |a| && 0 <= j < |a| && r.val == a[i].val - a[j].val)
            && (forall i, j :: 0 <= i < |a| && 0 <= j < |a| ==> a[i].val - a[j].val <= r.val)
  {
    ExtremesBound(a);
  }

  /** Whether a formula is computed at all depends on its number and its number of parcels only. */
  lemma {:induction false} ComputedByArity(sqrt: real -> real, formula: int, a: seq<Sample>, b: seq<Sample>)
    requires formula != 8 && |a| == |b|
    ensures Formula(sqrt, formula, a).NotComputed? == Formula(sqrt, formula, b).NotComputed?
  {
  }

  lemma {:induction false} PanicsIff(sqrt: real -> real, formula: int, a: seq<Sample>)
    requires formula != 8
    ensures Formula(sqrt, formula, a).Panics? <==> a == [] && formula in {50, 51, 54}
  {
  }

  /** NaN comes from the power factor of nothing and from the root of a negative number, and from nothing else. */
  lemma {:induction false} NotANumberIff(sqrt: real -> real, formula: int, a: seq<Sample>)
    requires formula != 8
    ensures Formula(sqrt, formula, a).NotANumber?
            <==> || (formula == 2 && |a| == 2 && sqrt(a[0].val * a[0].val + a[1].val * a[1].val) == 0.0)
                 || (formula == 5 && |a| == 1 && a[0].val < 0.0)
  {
  }

  /** The sums of the coefficient table: the first parcels are added and the others subtracted. */
  lemma {:induction false} DifferenceOfSums(plus: nat, minus: nat, a: seq<Sample>)
    requires |a| == plus + minus
    ensures SignedSum(Terms(plus, minus), a) == Sum(a[..plus]) - Sum(a[plus..])
    decreases |a|
  {
    if a == [] {
      assert a[..plus] == [] && a[plus..] == [];
    } else if minus > 0 {
      DifferenceOfSums(plus, minus - 1, a[..|a| - 1]);
      assert Terms(plus, minus)[..|a| - 1] == Terms(plus, minus - 1);
      assert a[..|a| - 1][..plus] == a[..plus];
      assert a[plus..][..|a| - 1 - plus] == a[..|a| - 1][plus..];
    } else {
      DifferenceOfSums(plus - 1, 0, a[..|a| - 1]);
      assert Terms(plus, 0)[..|a| - 1] == Terms(plus - 1, 0);
      assert a[..plus] == a && a[plus..] == [];
      assert a[..|a| - 1][..plus - 1] == a[..|a| - 1] && a[..|a| - 1][plus - 1..] == [];
    }
  }
}
