/**
 What each formula of the calculation process computes (src/calculations/calculations.go:489-1154), one law per
 number, on the parcels themselves.
 */
module FormulaLaws {
  import opened Options
  import opened Formulas

  // ---------------------------------------------------------------- sums

  lemma {:induction false} SumOfOne(p: Sample)
    ensures Sum([]) == 0.0 && Sum([p]) == p.val
  {
    assert [p][..0] == [];
  }

  lemma {:induction false} SumAppends(a: seq<Sample>, b: seq<Sample>)
    ensures Sum(a + b) == Sum(a) + Sum(b)
    decreases |b|
  {
    if b == [] {
      assert a + b == a;
    } else {
      assert (a + b)[..|a + b| - 1] == a + b[..|b| - 1];
      SumAppends(a, b[..|b| - 1]);
    }
  }

  lemma {:induction false} SignedSumAppends(cs: seq<real>, ds: seq<real>, a: seq<Sample>)
    requires |cs| + |ds| == |a|
    ensures SignedSum(cs + ds, a) == SignedSum(cs, a[..|cs|]) + SignedSum(ds, a[|cs|..])
    decreases |ds|
  {
    if ds == [] {
      assert cs + ds == cs && a[..|cs|] == a;
    } else {
      var n := |a| - 1;
      SignedSumAppends(cs, ds[..|ds| - 1], a[..n]);
      assert (cs + ds)[..n] == cs + ds[..|ds| - 1];
      assert a[..n][..|cs|] == a[..|cs|] && a[..n][|cs|..] == a[|cs|..][..|ds| - 1];
    }
  }

  lemma {:induction false} SignedSumOfOne(x: real, p: Sample)
    ensures SignedSum([x], [p]) == x * p.val
  {
    assert [x][..0] == [] && [p][..0] == [];
  }

  /** Formulas that add at most one parcel and subtract the others. */
  predicate AddsOne(formula: int, plus: nat, minus: nat) {
    || (plus == 0 && minus == 4 && formula == 5711)
    || (plus == 1 && minus == 1 && (formula == 15 || formula == 25673))
    || (plus == 1 && minus == 2 && formula == 16)
    || (plus == 1 && minus == 3 && formula == 17)
    || (plus == 1 && minus == 4 && formula == 208)
    || (plus == 1 && minus == 5 && formula == 18)
    || (plus == 1 && minus == 6 && formula == 210)
    || (plus == 1 && minus == 7 && formula == 200)
    || (plus == 1 && minus == 8 && formula == 206)
    || (plus == 1 && minus == 11 && formula == 7374)
  }

  /** Formulas that add two parcels. */
  predicate AddsTwo(formula: int, plus: nat, minus: nat) {
    || (plus == 2 && minus == 0 && formula == 5022)
    || (plus == 2 && minus == 1 && formula == 19)
    || (plus == 2 && minus == 2 && formula == 215)
    || (plus == 2 && minus == 3 && formula == 205)
    || (plus == 2 && minus == 4 && formula == 207)
    || (plus == 2 && minus == 6 && (formula == 226 || formula == 8055))
    || (plus == 2 && minus == 7 && formula == 209)
  }

  /** Formulas that add three or four parcels. */
  predicate AddsThreeOrFour(formula: int, plus: nat, minus: nat) {
    || (plus == 3 && minus == 1 && formula == 213)
    || (plus == 3 && minus == 2 && (formula == 227 || formula == 680))
    || (plus == 3 && minus == 3 && formula == 20)
    || (plus == 3 && minus == 4 && formula == 222)
    || (plus == 3 && minus == 5 && formula == 223)
    || (plus == 3 && minus == 6 && formula == 24)
    || (plus == 3 && minus == 9 && formula == 228)
    || (plus == 4 && minus == 1 && formula == 214)
    || (plus == 4 && minus == 5 && formula == 21)
  }

  /** Formulas that add more. */
  predicate AddsMore(formula: int, plus: nat, minus: nat) {
    || (plus == 5 && minus == 1 && formula == 217)
    || (plus == 5 && minus == 3 && formula == 232)
    || (plus == 5 && minus == 4 && formula == 211)
    || (plus == 6 && minus == 1 && formula == 224)
    || (plus == 6 && minus == 3 && formula == 22)
    || (plus == 7 && minus == 4 && formula == 233)
    || (plus == 8 && minus == 3 && formula == 201)
    || (plus == 9 && minus == 1 && formula == 230)
    || (plus == 9 && minus == 3 && formula == 229)
    || (plus == 10 && minus == 1 && formula == 23)
  }

  /** The sums and differences among the formulas, with the numbers of added and of subtracted parcels. */
  predicate IsDifference(formula: int, plus: nat, minus: nat) {
    || AddsOne(formula, plus, minus) || AddsTwo(formula, plus, minus) || AddsThreeOrFour(formula, plus, minus)
    || AddsMore(formula, plus, minus)
  }

  /** They add the first parcels and subtract the others. */
  lemma {:induction false} Differences(sqrt: real -> real, formula: int, plus: nat, minus: nat, a: seq<Sample>)
    requires IsDifference(formula, plus, minus) && |a| == plus + minus
    ensures Formula(sqrt, formula, a)
            == Computed(Sum(a[..plus]) - Sum(a[plus..]), exists i :: 0 <= i < |a| && a[i].invalid, false)
  {
    DifferenceRow(formula, plus, minus);
    TabledFormula(sqrt, formula, Terms(plus, minus), a);
    DifferenceOfSums(plus, minus, a);
  }

  lemma {:induction false} RowAddsOne(formula: int, plus: nat, minus: nat)
    requires AddsOne(formula, plus, minus)
    ensures Coefficients(formula) == Some(Terms(plus, minus)) && IsTabled(formula)
  {
  }

  lemma {:induction false} RowAddsTwo(formula: int, plus: nat, minus: nat)
    requires AddsTwo(formula, plus, minus)
    ensures Coefficients(formula) == Some(Terms(plus, minus)) && IsTabled(formula)
  {
  }

  lemma {:induction false} RowAddsThreeOrFour(formula: int, plus: nat, minus: nat)
    requires AddsThreeOrFour(formula, plus, minus)
    ensures Coefficients(formula) == Some(Terms(plus, minus)) && IsTabled(formula)
  {
  }

  lemma {:induction false} RowAddsMore(formula: int, plus: nat, minus: nat)
    requires AddsMore(formula, plus, minus)
    ensures Coefficients(formula) == Some(Terms(plus, minus)) && IsTabled(formula)
  {
  }

  /** Formulas without a case of their own. */
  predicate IsTabled(formula: int) {
    && formula != 1 && formula != 2 && formula != 3 && formula != 5 && formula != 8 && formula != 9 && formula != 13
    && formula != 26 && formula != 54 && formula != 55 && formula != 203 && formula != 216 && formula != 218
    && formula != 219 && formula != 220 && formula != 221 && formula != 225 && formula != 231
  }

  lemma {:induction false} TabledFormula(sqrt: real -> real, formula: int, cs: seq<real>, a: seq<Sample>)
    requires IsTabled(formula) && Coefficients(formula) == Some(cs) && |a| == |cs|
    ensures Formula(sqrt, formula, a) == Computed(SignedSum(cs, a), AnyInvalid(a), false)
  {
  }

  lemma {:induction false} DifferenceRow(formula: int, plus: nat, minus: nat)
    requires IsDifference(formula, plus, minus)
    ensures Coefficients(formula) == Some(Terms(plus, minus)) && IsTabled(formula)
  {
    if AddsOne(formula, plus, minus) {
      RowAddsOne(formula, plus, minus);
    } else if AddsTwo(formula, plus, minus) {
      RowAddsTwo(formula, plus, minus);
    } else if AddsThreeOrFour(formula, plus, minus) {
      RowAddsThreeOrFour(formula, plus, minus);
    } else {
      RowAddsMore(formula, plus, minus);
    }
  }

  // ---------------------------------------------------------------- weighted sums

  /** The sum over the parcels from `i` to `j`. */
  function Part(a: seq<Sample>, i: nat, j: nat): real
    requires i <= j <= |a|
  {
    Sum(a[i..j])
  }

  lemma {:induction false} PartOfOne(a: seq<Sample>, i: nat)
    requires i < |a|
    ensures Part(a, i, i + 1) == a[i].val
  {
    assert a[i..i + 1] == [a[i]];
    SumOfOne(a[i]);
  }

  /** A block of added and of subtracted parcels at the end of a formula. */
  lemma {:induction false} Block(cs: seq<real>, plus: nat, minus: nat, a: seq<Sample>)
    requires |cs| + plus + minus <= |a|
    ensures var n, m := |cs|, |cs| + plus + minus;
            SignedSum(cs + Terms(plus, minus), a[..m])
              == SignedSum(cs, a[..n]) + Part(a, n, n + plus) - Part(a, n + plus, m)
  {
    var n, m := |cs|, |cs| + plus + minus;
    SignedSumAppends(cs, Terms(plus, minus), a[..m]);
    DifferenceOfSums(plus, minus, a[n..m]);
    assert a[..m][..n] == a[..n] && a[..m][n..] == a[n..m];
    assert a[n..m][..plus] == a[n..n + plus] && a[n..m][plus..] == a[n + plus..m];
  }

  /** A weighted parcel at the end of a formula. */
  lemma {:induction false} Weighted(cs: seq<real>, x: real, a: seq<Sample>)
    requires |cs| < |a|
    ensures SignedSum(cs + [x], a[..|cs| + 1]) == SignedSum(cs, a[..|cs|]) + x * a[|cs|].val
  {
    var n := |cs|;
    SignedSumAppends(cs, [x], a[..n + 1]);
    SignedSumOfOne(x, a[n]);
    assert a[..n + 1][..n] == a[..n] && a[..n + 1][n..] == [a[n]];
  }

  lemma {:induction false} Formula11(sqrt: real -> real, a: seq<Sample>)
    requires |a| == 24
    ensures Formula(sqrt, 11, a) == Computed(Part(a, 0, 23) + 0.72 * a[23].val, AnyInvalid(a), false)
  {
    TabledFormula(sqrt, 11, Terms(23, 0) + [0.72], a);
    DifferenceOfSums(23, 0, a[..23]);
    Weighted(Terms(23, 0), 0.72, a);
    assert a[..24] == a && a[..23] == a[0..23] && a[..23][..23] == a[0..23] && a[..23][23..] == [];
  }

  const FIRST13: seq<real> := Terms(8, 1) + Terms(3, 0)

  lemma {:induction false} FirstOf13(a: seq<Sample>)
    requires |a| == 34
    ensures SignedSum(FIRST13 + [0.52] + Terms(2, 2), a[..17])
            == Part(a, 0, 8) - a[8].val + Part(a, 9, 12) + 0.52 * a[12].val + Part(a, 13, 15) - Part(a, 15, 17)
  {
    DifferenceOfSums(8, 1, a[..9]);
    assert a[..9][..8] == a[0..8] && a[..9][8..] == a[8..9] && a[12..12] == [];
    PartOfOne(a, 8);
    Block(Terms(8, 1), 3, 0, a);
    Weighted(FIRST13, 0.52, a);
    Block(FIRST13 + [0.52], 2, 2, a);
  }

  const MIDDLE13: seq<real> := FIRST13 + [0.52] + Terms(2, 2)

  lemma {:induction false} LastOf13(cs: seq<real>, a: seq<Sample>)
    requires |cs| == 17 && |a| == 34
    ensures SignedSum(cs + Terms(5, 0) + [0.0] + [0.0] + Terms(9, 0) + [0.2], a)
            == SignedSum(cs, a[..17]) + Part(a, 17, 22) + Part(a, 24, 33) + 0.2 * a[33].val
  {
    PlainBlock(cs, 5, a);
    Weighted(cs + Terms(5, 0), 0.0, a);
    Weighted(cs + Terms(5, 0) + [0.0], 0.0, a);
    PlainBlock(cs + Terms(5, 0) + [0.0] + [0.0], 9, a);
    Weighted(cs + Terms(5, 0) + [0.0] + [0.0] + Terms(9, 0), 0.2, a);
    assert a[..34] == a;
  }

  lemma {:induction false} PlainBlock(cs: seq<real>, plus: nat, a: seq<Sample>)
    requires |cs| + plus <= |a|
    ensures SignedSum(cs + Terms(plus, 0), a[..|cs| + plus]) == SignedSum(cs, a[..|cs|]) + Part(a, |cs|, |cs| + plus)
  {
    Block(cs, plus, 0, a);
    assert a[|cs| + plus..|cs| + plus] == [];
  }

  lemma {:induction false} Row13()
    ensures Coefficients(13) == Some(MIDDLE13 + Terms(5, 0) + [0.0] + [0.0] + Terms(9, 0) + [0.2])
  {
    var c22 := MIDDLE13 + Terms(5, 0);
    assert c22 + [0.0, 0.0] == c22 + [0.0] + [0.0];
  }

  lemma {:induction false} Formula13(sqrt: real -> real, a: seq<Sample>)
    requires |a| == 34
    ensures Formula(sqrt, 13, a)
            == Computed(Part(a, 0, 8) - a[8].val + Part(a, 9, 12) + 0.52 * a[12].val + Part(a, 13, 15) - Part(a, 15, 17)
                        + Part(a, 17, 22) + Part(a, 24, 33) + 0.2 * a[33].val - 1.0, AnyInvalid(a), false)
  {
    Row13();
    FirstOf13(a);
    LastOf13(MIDDLE13, a);
  }

  lemma {:induction false} Formula5000(sqrt: real -> real, a: seq<Sample>)
    requires |a| == 6
    ensures Formula(sqrt, 5000, a)
            == Computed(Part(a, 0, 3) - a[3].val - 0.6 * a[4].val + a[5].val, AnyInvalid(a), false)
  {
    var cs := Terms(3, 1);
    assert cs + [-0.6] + [1.0] == cs + [-0.6, 1.0];
    TabledFormula(sqrt, 5000, cs + [-0.6, 1.0], a);
    DifferenceOfSums(3, 1, a[..4]);
    assert a[..4][..3] == a[0..3] && a[..4][3..] == a[3..4] && a[..6] == a;
    PartOfOne(a, 3);
    Weighted(cs, -0.6, a);
    Weighted(cs + [-0.6], 1.0, a);
  }

  lemma {:induction false} Formula5041(sqrt: real -> real, a: seq<Sample>)
    requires |a| == 5
    ensures Formula(sqrt, 5041, a)
            == Computed(Part(a, 0, 2) - a[2].val + a[3].val - a[4].val, AnyInvalid(a), false)
  {
    TabledFormula(sqrt, 5041, Terms(2, 1) + Terms(1, 1), a);
    DifferenceOfSums(2, 1, a[..3]);
    assert a[..3][..2] == a[0..2] && a[..3][2..] == a[2..3] && a[..5] == a;
    PartOfOne(a, 2);
    PartOfOne(a, 3);
    PartOfOne(a, 4);
    Block(Terms(2, 1), 1, 1, a);
  }

  lemma {:induction false} Formula5043(sqrt: real -> real, a: seq<Sample>)
    requires |a| == 9
    ensures Formula(sqrt, 5043, a)
            == Computed(Part(a, 0, 4) - Part(a, 4, 6) + a[6].val - Part(a, 7, 9), AnyInvalid(a), false)
  {
    TabledFormula(sqrt, 5043, Terms(4, 2) + Terms(1, 2), a);
    DifferenceOfSums(4, 2, a[..6]);
    assert a[..6][..4] == a[0..4] && a[..6][4..] == a[4..6] && a[..9] == a;
    PartOfOne(a, 6);
    Block(Terms(4, 2), 1, 2, a);
  }

  lemma {:induction false} FirstOf5406(a: seq<Sample>)
    requires |a| == 11
    ensures SignedSum(Terms(0, 1) + Terms(5, 2), a[..8]) == -a[0].val + Part(a, 1, 6) - Part(a, 6, 8)
  {
    DifferenceOfSums(0, 1, a[..1]);
    assert a[..1][..0] == [] && a[..1][0..] == a[0..1];
    PartOfOne(a, 0);
    Block(Terms(0, 1), 5, 2, a);
  }

  lemma {:induction false} Formula5406(sqrt: real -> real, a: seq<Sample>)
    requires |a| == 11
    ensures Formula(sqrt, 5406, a)
            == Computed(-a[0].val + Part(a, 1, 6) - Part(a, 6, 8) + Part(a, 8, 11), AnyInvalid(a), false)
  {
    TabledFormula(sqrt, 5406, Terms(0, 1) + Terms(5, 2) + Terms(3, 0), a);
    FirstOf5406(a);
    assert a[11..11] == [] && a[..11] == a;
    Block(Terms(0, 1) + Terms(5, 2), 3, 0, a);
  }

  lemma {:induction false} ScaleRows()
    ensures Coefficients(14) == Some([10.0 / 6.0]) && Coefficients(204) == Some([0.5])
    ensures Coefficients(5172) == Some([-0.72]) && Coefficients(5173) == Some([0.38])
            && Coefficients(5174) == Some([0.14])
  {
  }

  /** Formulas that scale their only parcel. */
  lemma {:induction false} ScaledParcel(sqrt: real -> real, p: Sample)
    ensures Formula(sqrt, 14, [p]) == Computed(p.val * 10.0 / 6.0, p.invalid, false)
    ensures Formula(sqrt, 204, [p]) == Computed(p.val / 2.0, p.invalid, false)
  {
    ScaleRows();
    Scaled(sqrt, 14, 10.0 / 6.0, p);
    Scaled(sqrt, 204, 0.5, p);
  }

  lemma {:induction false} WeightedParcel(sqrt: real -> real, p: Sample)
    ensures Formula(sqrt, 5172, [p]) == Computed(-0.72 * p.val, p.invalid, false)
    ensures Formula(sqrt, 5173, [p]) == Computed(0.38 * p.val, p.invalid, false)
  {
    ScaleRows();
    Scaled(sqrt, 5172, -0.72, p);
    Scaled(sqrt, 5173, 0.38, p);
  }

  lemma {:induction false} SmallWeight(sqrt: real -> real, p: Sample)
    ensures Formula(sqrt, 5174, [p]) == Computed(0.14 * p.val, p.invalid, false)
  {
    ScaleRows();
    Scaled(sqrt, 5174, 0.14, p);
  }

  /** Minutes of hours and minutes. */
  lemma {:induction false} Minutes(sqrt: real -> real, p: Sample, q: Sample)
    ensures Formula(sqrt, 202, [p, q]) == Computed(60.0 * p.val + q.val, p.invalid || q.invalid, false)
  {
    InvalidAmong(p, q, q);
    TabledFormula(sqrt, 202, [60.0, 1.0], [p, q]);
    assert [60.0] + [1.0] == [60.0, 1.0] && [p, q][..1] == [p] && [p, q][..2] == [p, q];
    SignedSumOfOne(60.0, p);
    Weighted([60.0], 1.0, [p, q]);
  }

  lemma {:induction false} Scaled(sqrt: real -> real, formula: int, x: real, p: Sample)
    requires IsTabled(formula) && Coefficients(formula) == Some([x])
    ensures Formula(sqrt, formula, [p]) == Computed(x * p.val, p.invalid, false)
  {
    TabledFormula(sqrt, formula, [x], [p]);
    SignedSumOfOne(x, p);
    InvalidAmong(p, p, p);
  }

  lemma {:induction false} InvalidAmong(p: Sample, q: Sample, r: Sample)
    ensures AnyInvalid([p]) == p.invalid
    ensures AnyInvalid([p, q]) == (p.invalid || q.invalid)
    ensures AnyInvalid([p, q, r]) == (p.invalid || q.invalid || r.invalid)
  {
    assert [p][0] == p;
    assert [p, q][0] == p && [p, q][1] == q;
    assert [p, q, r][0] == p && [p, q, r][1] == q && [p, q, r][2] == r;
  }

  // ---------------------------------------------------------------- choices and comparisons

  lemma {:induction false} LowerAndHigher(sqrt: real -> real, p: Sample, q: Sample)
    ensures var r := Formula(sqrt, 220, [p, q]);
            && r.Computed? && r.val <= p.val && r.val <= q.val && (r.val == p.val || r.val == q.val)
            && r.invalid == (p.invalid || q.invalid) && !r.transient
    ensures var r := Formula(sqrt, 221, [p, q]);
            && r.Computed? && r.val >= p.val && r.val >= q.val && (r.val == p.val || r.val == q.val)
            && r.invalid == (p.invalid || q.invalid) && !r.transient
  {
    InvalidAmong(p, q, q);
  }

  /** The three tests for a value between two others differ in which bound they include. */
  lemma {:induction false} BetweenIff(sqrt: real -> real, p: Sample, lo: Sample, hi: Sample)
    ensures Formula(sqrt, 216, [p, lo, hi])
            == Computed(if lo.val <= p.val && p.val <= hi.val then 1.0 else 0.0, p.invalid, false)
    ensures Formula(sqrt, 218, [p, lo, hi])
            == Computed(if lo.val < p.val && p.val <= hi.val then 1.0 else 0.0, p.invalid, false)
    ensures Formula(sqrt, 219, [p, lo, hi])
            == Computed(if lo.val <= p.val && p.val < hi.val then 1.0 else 0.0, p.invalid, false)
  {
  }

  /** The first parcel selects one of the others, with its validity. */
  lemma {:induction false} SelectedParcel(sqrt: real -> real, selector: Sample, p: Sample, q: Sample)
    ensures selector.val != 0.0 ==> Formula(sqrt, 203, [selector, p, q]) == Computed(q.val, q.invalid, false)
    ensures selector.val == 0.0 ==> Formula(sqrt, 203, [selector, p, q]) == Computed(p.val, p.invalid, false)
  {
  }

  lemma {:induction false} NegativePart(sqrt: real -> real, p: Sample)
    ensures var r := Formula(sqrt, 231, [p]);
            && r.Computed? && r.invalid == p.invalid && !r.transient
            && (p.val > 0.0 ==> r.val == 0.0) && (p.val <= 0.0 ==> r.val == p.val)
  {
    InvalidAmong(p, p, p);
  }

  /** Small magnitudes of the first parcel give one, large ones zero, and those between the second parcel. */
  lemma {:induction false} ByMagnitude(sqrt: real -> real, p: Sample, q: Sample)
    ensures var r := Formula(sqrt, 26, [p, q]);
            && r.Computed? && r.invalid == (p.invalid || q.invalid) && !r.transient
            && (-0.5 <= p.val <= 0.5 ==> r.val == 1.0)
            && (p.val > 1.4 || p.val < -1.4 ==> r.val == 0.0)
            && (0.5 < p.val <= 1.4 || -1.4 <= p.val < -0.5 ==> r.val == q.val)
  {
    InvalidAmong(p, q, q);
  }

  /**
   A double point from two single ones: only the first set is on, only the second set is off, and equal ones
   are in transit.
   */
  lemma {:induction false} DoublePoint(sqrt: real -> real, p: Sample, q: Sample)
    ensures var r := Formula(sqrt, 54, [p, q]);
            && r.Computed? && r.transient == (p.val == q.val)
            && r.invalid == (p.val == q.val || p.invalid || q.invalid)
            && (p.val != 0.0 && q.val == 0.0 ==> r.val == 1.0)
            && (p.val == 0.0 ==> r.val == 0.0)
            && (p.val != 0.0 && q.val != 0.0 ==> r.val == p.val)
  {
    InvalidAmong(p, q, q);
  }

  lemma {:induction false} ConstantOne(sqrt: real -> real, p: Sample, a: seq<Sample>)
    ensures Formula(sqrt, 225, []) == Computed(1.0, false, false)
            && Formula(sqrt, 225, [p]) == Computed(1.0, false, false)
    ensures |a| > 1 ==> Formula(sqrt, 225, a).NotComputed?
  {
  }

  // ---------------------------------------------------------------- quotients and roots

  lemma {:induction false} QuotientSolves(x: real, y: real)
    requires y != 0.0
    ensures x / y * y == x
  {
  }

  lemma {:induction false} DivisionSolves(x: real, y: real)
    ensures y != 0.0 ==> Division(x, y) * y == x
    ensures y == 0.0 ==> Division(x, y) == if x == 0.0 then 0.0 else if x > 0.0 then MAX_FLOAT64 else -MAX_FLOAT64
  {
    if y != 0.0 {
      QuotientSolves(x, y);
    }
  }

  lemma {:induction false} ProductLaws(x: real, y: real)
    ensures 2.0 * x * y == 2.0 * (x * y) && (x - 1.0) * y + y == x * y
  {
  }

  lemma {:induction false} PowersMultiply(m: nat, n: nat)
    ensures PowerOfTwo(m) * PowerOfTwo(n) == PowerOfTwo(m + n)
    decreases m
  {
    if m > 0 {
      PowersMultiply(m - 1, n);
      ProductLaws(PowerOfTwo(m - 1), PowerOfTwo(n));
    }
  }

  /** The greatest finite number lies one unit in its last place, 2^971, below 2^1024. */
  lemma {:induction false} GreatestFloat()
    ensures PowerOfTwo(1) == 2.0 && MAX_FLOAT64 + PowerOfTwo(971) == PowerOfTwo(1024)
  {
    PowersMultiply(53, 971);
    ProductLaws(PowerOfTwo(53), PowerOfTwo(971));
    assert PowerOfTwo(0) == 1.0;
  }

  /** The quotient; by zero it is zero or the greatest finite number with the sign of the dividend. */
  lemma {:induction false} Quotient(sqrt: real -> real, a: seq<Sample>)
    requires |a| == 2
    ensures var r := Formula(sqrt, 55, a);
            && r.Computed? && r.invalid == (a[0].invalid || a[1].invalid) && !r.transient
            && (a[1].val != 0.0 ==> r.val * a[1].val == a[0].val)
            && (a[1].val == 0.0 && a[0].val == 0.0 ==> r.val == 0.0)
            && (a[1].val == 0.0 && a[0].val > 0.0 ==> r.val == MAX_FLOAT64)
            && (a[1].val == 0.0 && a[0].val < 0.0 ==> r.val == -MAX_FLOAT64)
  {
    assert Formula(sqrt, 55, a) == Computed(Division(a[0].val, a[1].val), AnyInvalid(a), false);
    DivisionSolves(a[0].val, a[1].val);
  }

  ghost predicate IsRoot(sqrt: real -> real) {
    forall x :: x >= 0.0 ==> sqrt(x) >= 0.0 && sqrt(x) * sqrt(x) == x
  }

  lemma {:induction false} SquaresAreNotNegative(x: real, y: real)
    ensures x * x + y * y >= 0.0
  {
  }

  /** The apparent power is the root `d` of the sum of squares. */
  lemma {:induction false} ApparentPower(sqrt: real -> real, a: seq<Sample>, d: real)
    requires IsRoot(sqrt) && |a| == 2 && d == sqrt(a[0].val * a[0].val + a[1].val * a[1].val)
    ensures Formula(sqrt, 3, a) == Computed(d, a[0].invalid || a[1].invalid, false)
    ensures d >= 0.0 && d * d == a[0].val * a[0].val + a[1].val * a[1].val
  {
    SquaresAreNotNegative(a[0].val, a[1].val);
  }

  /** The root `d` of a number that is not negative. */
  lemma {:induction false} Root(sqrt: real -> real, a: seq<Sample>, d: real)
    requires IsRoot(sqrt) && |a| == 1 && d == sqrt(a[0].val)
    ensures a[0].val < 0.0 ==> Formula(sqrt, 5, a) == NotANumber(a[0].invalid)
    ensures a[0].val >= 0.0 ==> Formula(sqrt, 5, a) == Computed(d, a[0].invalid, false) && d >= 0.0 && d * d == a[0].val
  {
  }

  /** The power factor times the apparent power `d` is the active power. */
  lemma {:induction false} PowerFactor(sqrt: real -> real, a: seq<Sample>, d: real)
    requires IsRoot(sqrt) && |a| == 2 && d == sqrt(a[0].val * a[0].val + a[1].val * a[1].val)
    ensures Formula(sqrt, 3, a) == Computed(d, a[0].invalid || a[1].invalid, false)
    ensures var r := Formula(sqrt, 2, a);
            if d == 0.0 then r == NotANumber(a[0].invalid || a[1].invalid)
            else r.Computed? && r.val * d == a[0].val && r.invalid == (a[0].invalid || a[1].invalid) && !r.transient
  {
    ApparentPower(sqrt, a, d);
    if d != 0.0 {
      QuotientSolves(a[0].val, d);
    }
  }

  /** The current solves the power equation at a positive voltage and is zero otherwise. */
  lemma {:induction false} Current(sqrt: real -> real, a: seq<Sample>)
    requires |a| == 3
    ensures var r := Formula(sqrt, 1, a);
            && r.Computed? && r.invalid == (a[0].invalid || a[1].invalid || a[2].invalid) && !r.transient
            && (a[2].val > 0.0
                ==> r.val * a[2].val == 577.35027 * sqrt(a[0].val * a[0].val + a[1].val * a[1].val))
            && (a[2].val <= 0.0 ==> r.val == 0.0)
  {
    if a[2].val > 0.0 {
      QuotientSolves(577.35027 * sqrt(a[0].val * a[0].val + a[1].val * a[1].val), a[2].val);
    }
  }

  /** Power from current and voltage. */
  lemma {:induction false} PowerOf(sqrt: real -> real, a: seq<Sample>)
    requires |a| == 2
    ensures var r := Formula(sqrt, 9, a);
            && r.Computed? && r.val * 1000.0 == a[0].val * a[1].val * sqrt(3.0)
            && r.invalid == (a[0].invalid || a[1].invalid) && !r.transient
  {
  }

  // ---------------------------------------------------------------- formulas over any number of parcels

  lemma {:induction false} WholeSums(sqrt: real -> real, a: seq<Sample>)
    ensures Formula(sqrt, 4, a) == Computed(Sum(a), exists i :: 0 <= i < |a| && a[i].invalid, false)
    ensures Formula(sqrt, 10, a) == Computed(-Sum(a), exists i :: 0 <= i < |a| && a[i].invalid, false)
  {
    LoopFormulasHaveNoArity(4);
    LoopFormulasHaveNoArity(10);
  }

  lemma {:induction false} AndOr(sqrt: real -> real, formula: int, a: seq<Sample>)
    requires formula == 6 || formula == 7 || formula == 500
    ensures var r := Formula(sqrt, formula, a);
            && r.Computed? && (r.val == 0.0 || r.val == 1.0) && !r.transient
            && (r.invalid <==> exists i :: 0 <= i < |a| && a[i].invalid)
            && (formula == 6 ==> (r.val == 0.0 <==> exists i :: 0 <= i < |a| && a[i].val == 0.0))
            && (formula != 6 ==> (r.val == 1.0 <==> exists i :: 0 <= i < |a| && a[i].val != 0.0))
  {
    LoopFormulasHaveNoArity(formula);
  }

  /** The last valid parcel is chosen, or the first when there is none. */
  lemma {:induction false} Chosen(sqrt: real -> real, formula: int, a: seq<Sample>)
    requires (formula == 50 || formula == 51) && a != []
    ensures var r := Formula(sqrt, formula, a);
            && r.Computed? && !r.transient
            && (r.invalid <==> forall i :: 0 <= i < |a| ==> a[i].invalid)
            && (r.invalid ==> r.val == a[0].val)
            && (!r.invalid ==> exists k :: LastValid(a, |a|, k) && r.val == a[k].val)
  {
    LoopFormulasHaveNoArity(formula);
    ChoiceIsLast(a);
  }

  lemma {:induction false} AnyValid(sqrt: real -> real, a: seq<Sample>)
    ensures var r := Formula(sqrt, 52, a);
            && r.Computed? && (r.val == 0.0 || r.val == 1.0) && !r.invalid && !r.transient
            && (r.val == 1.0 <==> exists i :: 0 <= i < |a| && !a[i].invalid)
  {
    LoopFormulasHaveNoArity(52);
  }
}
