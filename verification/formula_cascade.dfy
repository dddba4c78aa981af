/**
 The formula cascade of the evaluator: branch-selected formulas layered on the
 two table lookups `T` and `U`, and the four-way dispatch `Fun` at the top.

 Every formula receives the table as its pair of lookups (`Lookups`), so the
 properties below hold whatever the lookups are; `Evaluate` runs the cascade
 on the lookups of a concrete table. Formulas that may take a logarithm also
 receive `ln`, the natural logarithm, left uninterpreted. Its domain is the
 positive reals, so every call of `ln` below is checked to pass a positive
 argument.
 */
module FormulaCascade {
  import opened ReferenceTable

  /** Arguments the natural logarithm is defined on. */
  type Positive = r: real | r > 0.0 witness 1.0

  /** The natural logarithm, as a parameter of the model. */
  type Log = Positive -> real

  /** What the formulas read from the table: its T lookup and its U lookup. */
  datatype Lookups = Lookups(t: real -> real, u: real -> real)

  /** The two lookups of a table. */
  function LookupsOf(data: Table): (ref: Lookups)
    requires WellFormed(data)
  {
    Lookups(q => T(q, data), q => U(q, data))
  }

  function Abs(r: real): real {
    if r < 0.0 then -r else r
  }

  /** The quantity x² + 2y whose comparison with 1 selects the logarithmic branch. */
  function Threshold(x: real, y: real): real {
    x * x + 2.0 * y
  }

  function Srz(x: real, y: real, z: real, ref: Lookups): real {
    if x > y then ref.t(x) + ref.u(z) - ref.t(y)
    else ref.t(y) + ref.u(y) - ref.u(z)
  }

  function Srs1(x: real, y: real, ref: Lookups, ln: Log): real {
    var v := Threshold(x, y);
    if v > 1.0 then Srz(x, y, x, ref) + y * ln(v)
    else y + Srz(y, x, y, ref)
  }

  function Qrz(x: real, y: real, ref: Lookups, ln: Log): real {
    if Abs(x) < 1.0 then x * Srs1(x, y, ref, ln)
    else y * Srs1(x, y, ref, ln)
  }

  function Rrz(x: real, y: real, z: real, ref: Lookups, ln: Log): real {
    if x > y then x * y * Qrz(y, z, ref, ln)
    else x * z * Qrz(x, y, ref, ln)
  }

  function Krn(x: real, y: real, z: real, ref: Lookups, ln: Log): real {
    73.1389 * Rrz(x, y, z, ref, ln) + 14.838 * Rrz(x - y, z, y, ref, ln)
  }

  function Fun1(x: real, y: real, z: real, ref: Lookups, ln: Log): real {
    WeighKernels(x, y, z, Krn(x, y, z, ref, ln), Krn(x, z, y, ref, ln))
  }

  /** The outer weighting of `Fun1`: the kernel at (x, y, z) weighted by x, and
      the kernel at (x, z, y) weighted once by y and once by -z. */
  function WeighKernels(x: real, y: real, z: real, a: real, b: real): real {
    x * a + y * b - z * b
  }

  function Srs2(x: real, y: real, z: real, ref: Lookups): real {
    if z >= y then Srz(x, y, z, ref) + 1.44 * y * z
    else 1.44 * y * Srz(z, x, y, ref)
  }

  /** A second copy of `Qrz`, used by the dispatch. */
  function Qrz1(x: real, y: real, ref: Lookups, ln: Log): real {
    if Abs(x) < 1.0 then x * Srs1(x, y, ref, ln)
    else y * Srs1(x, y, ref, ln)
  }

  /** A second copy of `Rrz`, built on `Qrz1`, used by the dispatch. */
  function Rrz2(x: real, y: real, z: real, ref: Lookups, ln: Log): real {
    if x > y then x * y * Qrz1(y, z, ref, ln)
    else x * z * Qrz1(x, y, ref, ln)
  }

  /** Defined next to `Srs2` but called by no other formula. */
  function Srs3(x: real, y: real, z: real, ref: Lookups): real {
    if z > y then Srz(x, y, z, ref) + y * z
    else y + Srz(z, x, y, ref)
  }

  function Qrz2(x: real, y: real, ref: Lookups): real {
    if Abs(x) < 1.0 then x * Srs2(x, y, y, ref)
    else y * Srs2(x, y, y, ref)
  }

  function Rrz3(x: real, y: real, z: real, ref: Lookups): real {
    if x > y then x * y * Qrz2(y, z, ref)
    else x * z * Qrz2(x, y, ref)
  }

  function Krn2(x: real, y: real, z: real, ref: Lookups): real {
    83.1389 * Rrz3(x, y, z, ref) + 4.838 * Rrz3(x, z, y, ref)
  }

  /** The closed-form fallback; it reads no table. */
  function Fun5(x: real, y: real, z: real): real {
    4.349 * x * x + 23.23 * y - 2.348 * x * y * z
  }

  /** The evaluator: a priority chain over four formulas. */
  function Fun(x: real, y: real, z: real, ref: Lookups, ln: Log): real {
    if Threshold(x, y) > 1.0 then Fun1(x, y, z, ref, ln)
    else if Rrz2(x, y, z, ref, ln) != 0.0 then Krn(x, y, z, ref, ln)
    else if Rrz3(x, y, z, ref) != 0.0 then Krn2(x, y, z, ref)
    else Fun5(x, y, z)
  }

  /** The evaluator applied to a table. */
  function Evaluate(x: real, y: real, z: real, data: Table, ln: Log): real
    requires WellFormed(data)
  {
    Fun(x, y, z, LookupsOf(data), ln)
  }

  // ---------------------------------------------------------------------------
  // Properties of the cascade
  // ---------------------------------------------------------------------------

  /** With all three arguments equal, `Srz` is the T lookup there: the U terms cancel. */
  lemma SrzOnDiagonal(a: real, ref: Lookups)
    ensures Srz(a, a, a, ref) == ref.t(a)
  {
  }

  /** If both columns of a table lie in [lo, hi], `Srz` over its lookups (two
      lookups added, one subtracted) lies in [2lo - hi, 2hi - lo]. */
  lemma SrzWithinRange(x: real, y: real, z: real, data: Table, lo: real, hi: real)
    requires WellFormed(data)
    requires forall i :: 0 <= i < |data| ==> lo <= data[i].T <= hi && lo <= data[i].U <= hi
    ensures 2.0 * lo - hi <= Srz(x, y, z, LookupsOf(data)) <= 2.0 * hi - lo
  {
    var ref := LookupsOf(data);
    forall q
      ensures lo <= ref.t(q) <= hi && lo <= ref.u(q) <= hi
    {
      InterpolateWithinRange(data, q, ColT, lo, hi);
      InterpolateWithinRange(data, q, ColU, lo, hi);
    }
  }

  /** At or below the threshold 1 (the comparison is strict), `Srs1` takes its
      second branch and its value does not depend on the logarithm at all. */
  lemma Srs1IgnoresLogAtOrBelowOne(x: real, y: real, ref: Lookups, ln1: Log, ln2: Log)
    requires Threshold(x, y) <= 1.0
    ensures Srs1(x, y, ref, ln1) == y + Srz(y, x, y, ref)
    ensures Srs1(x, y, ref, ln1) == Srs1(x, y, ref, ln2)
  {
  }

  /** Above the threshold, two logarithms change `Srs1` by exactly y times their
      difference at x² + 2y. */
  lemma Srs1LogSensitivity(x: real, y: real, ref: Lookups, ln1: Log, ln2: Log)
    requires Threshold(x, y) > 1.0
    ensures Srs1(x, y, ref, ln1) - Srs1(x, y, ref, ln2)
            == y * (ln1(Threshold(x, y)) - ln2(Threshold(x, y)))
  {
  }

  /** `Qrz` vanishes when its first argument is 0, and when |x| >= 1 and y is 0. */
  lemma QrzVanishes(x: real, y: real, ref: Lookups, ln: Log)
    requires x == 0.0 || (Abs(x) >= 1.0 && y == 0.0)
    ensures Qrz(x, y, ref, ln) == 0.0
  {
  }

  /** The copy `Qrz1` agrees with `Qrz` on every input and table. */
  lemma Qrz1MatchesQrz(x: real, y: real, ref: Lookups, ln: Log)
    ensures Qrz1(x, y, ref, ln) == Qrz(x, y, ref, ln)
  {
  }

  /** The copy `Rrz2` agrees with `Rrz` on every input and table. */
  lemma Rrz2MatchesRrz(x: real, y: real, z: real, ref: Lookups, ln: Log)
    ensures Rrz2(x, y, z, ref, ln) == Rrz(x, y, z, ref, ln)
  {
    if x > y {
      Qrz1MatchesQrz(y, z, ref, ln);
    } else {
      Qrz1MatchesQrz(x, y, ref, ln);
    }
  }

  /** Both branches of `Rrz` and of `Rrz3` carry the factor x. */
  lemma RrzVanishesAtXZero(y: real, z: real, ref: Lookups, ln: Log)
    ensures Rrz(0.0, y, z, ref, ln) == 0.0
    ensures Rrz3(0.0, y, z, ref) == 0.0
  {
  }

  /** `Krn` vanishes when x and y are both 0; on x == y its second term drops. */
  lemma KrnVanishes(x: real, y: real, z: real, ref: Lookups, ln: Log)
    ensures x == 0.0 && y == 0.0 ==> Krn(x, y, z, ref, ln) == 0.0
    ensures x == y ==> Krn(x, y, z, ref, ln) == 73.1389 * Rrz(x, y, z, ref, ln)
  {
  }

  /** `Krn2` vanishes on the whole plane x == 0. */
  lemma Krn2VanishesAtXZero(y: real, z: real, ref: Lookups)
    ensures Krn2(0.0, y, z, ref) == 0.0
  {
  }

  /** The last two terms of `Fun1` read the same kernel value, so on y == z
      they cancel and only the first term is left. */
  lemma Fun1Cancels(x: real, y: real, z: real, ref: Lookups, ln: Log)
    requires y == z
    ensures Fun1(x, y, z, ref, ln) == x * Krn(x, y, z, ref, ln)
  {
  }

  /** `Qrz2` always calls `Srs2` with z == y, where the non-strict test takes the
      first branch: the second branch of `Srs2` is never reached from the cascade. */
  lemma Qrz2UsesFirstBranchOfSrs2(x: real, y: real, ref: Lookups)
    ensures Srs2(x, y, y, ref) == Srz(x, y, y, ref) + 1.44 * y * y
    ensures Qrz2(x, y, ref) == (if Abs(x) < 1.0 then x else y) * (Srz(x, y, y, ref) + 1.44 * y * y)
  {
  }

  /** On a tie z == y the strict test of `Srs3` takes the second branch, unlike `Srs2`. */
  lemma Srs3TieTakesSecondBranch(x: real, y: real, ref: Lookups)
    ensures Srs3(x, y, y, ref) == y + Srz(y, x, y, ref)
  {
  }

  /** `Srs2` against `Srs3` off the diagonal: above it (z > y) both take their
      first branch and differ only in the weight of y·z; below it (z < y) both
      take their second branch, which `Srs2` scales by 1.44 y instead of
      shifting by y. With `Srs3TieTakesSecondBranch` this covers every input. */
  lemma Srs2AgainstSrs3(x: real, y: real, z: real, ref: Lookups)
    ensures z > y ==> Srs2(x, y, z, ref) == Srs3(x, y, z, ref) + 0.44 * y * z
    ensures z < y ==> Srs2(x, y, z, ref) == 1.44 * y * (Srs3(x, y, z, ref) - y)
  {
  }

  /** The zero set of `Qrz`: either the factor its `abs(x) < 1` test selects
      (x itself, or else y) is 0, or the `Srs1` value is. */
  lemma QrzZeroSet(x: real, y: real, ref: Lookups, ln: Log)
    ensures Qrz(x, y, ref, ln) == 0.0
            <==> (if Abs(x) < 1.0 then x == 0.0 else y == 0.0) || Srs1(x, y, ref, ln) == 0.0
  {
  }

  /** The zero set of `Qrz2`, the same shape over `Srs2` on the diagonal. */
  lemma Qrz2ZeroSet(x: real, y: real, ref: Lookups)
    ensures Qrz2(x, y, ref) == 0.0
            <==> (if Abs(x) < 1.0 then x == 0.0 else y == 0.0) || Srs2(x, y, y, ref) == 0.0
  {
  }

  /** The zero set of `Rrz`, which the second guard of the dispatch tests
      (through its copy `Rrz2`). */
  lemma RrzZeroSet(x: real, y: real, z: real, ref: Lookups, ln: Log)
    ensures Rrz(x, y, z, ref, ln) == 0.0
            <==> || x == 0.0
                 || (x > y && (y == 0.0 || Qrz(y, z, ref, ln) == 0.0))
                 || (x <= y && (z == 0.0 || Qrz(x, y, ref, ln) == 0.0))
  {
  }

  /** The zero set of `Rrz3`, which the third guard of the dispatch tests. */
  lemma Rrz3ZeroSet(x: real, y: real, z: real, ref: Lookups)
    ensures Rrz3(x, y, z, ref) == 0.0
            <==> || x == 0.0
                 || (x > y && (y == 0.0 || Qrz2(y, z, ref) == 0.0))
                 || (x <= y && (z == 0.0 || Qrz2(x, y, ref) == 0.0))
  {
  }

  /** `Krn` reduces to its first term exactly when its second term, `Rrz` at
      (x - y, z, y), vanishes; with `RrzZeroSet` that is an explicit condition. */
  lemma KrnFirstTermOnly(x: real, y: real, z: real, ref: Lookups, ln: Log)
    ensures Krn(x, y, z, ref, ln) == 73.1389 * Rrz(x, y, z, ref, ln)
            <==> Rrz(x - y, z, y, ref, ln) == 0.0
  {
  }

  /** `Krn2` reads `Rrz3` at (x, y, z) and at (x, z, y) with the weights swapped
      between the two orders: the sum over both orders weighs them equally,
      the difference by the difference of the weights. */
  lemma Krn2UnderSwap(x: real, y: real, z: real, ref: Lookups)
    ensures Krn2(x, y, z, ref) + Krn2(x, z, y, ref)
            == 87.9769 * (Rrz3(x, y, z, ref) + Rrz3(x, z, y, ref))
    ensures Krn2(x, y, z, ref) - Krn2(x, z, y, ref)
            == 78.3009 * (Rrz3(x, y, z, ref) - Rrz3(x, z, y, ref))
  {
  }

  /** The last two terms of `Fun1` read the same kernel value at (x, z, y), so
      `Fun1` is x times the kernel plus (y - z) times the swapped kernel. */
  lemma Fun1Regroups(x: real, y: real, z: real, ref: Lookups, ln: Log)
    ensures Fun1(x, y, z, ref, ln)
            == x * Krn(x, y, z, ref, ln) + (y - z) * Krn(x, z, y, ref, ln)
  {
    WeighKernelsRegroups(x, y, z, Krn(x, y, z, ref, ln), Krn(x, z, y, ref, ln));
  }

  /** The two weights of the second kernel combine into y - z. */
  lemma WeighKernelsRegroups(x: real, y: real, z: real, a: real, b: real)
    ensures WeighKernels(x, y, z, a, b) == x * a + (y - z) * b
  {
  }

  /** The dispatch, restated with the original `Rrz` in place of its copy. */
  lemma FunRoutes(x: real, y: real, z: real, ref: Lookups, ln: Log)
    ensures Threshold(x, y) > 1.0 ==> Fun(x, y, z, ref, ln) == Fun1(x, y, z, ref, ln)
    ensures Threshold(x, y) <= 1.0 && Rrz(x, y, z, ref, ln) != 0.0
            ==> Fun(x, y, z, ref, ln) == Krn(x, y, z, ref, ln)
    ensures Threshold(x, y) <= 1.0 && Rrz(x, y, z, ref, ln) == 0.0 && Rrz3(x, y, z, ref) != 0.0
            ==> Fun(x, y, z, ref, ln) == Krn2(x, y, z, ref)
    ensures Threshold(x, y) <= 1.0 && Rrz(x, y, z, ref, ln) == 0.0 && Rrz3(x, y, z, ref) == 0.0
            ==> Fun(x, y, z, ref, ln) == Fun5(x, y, z)
  {
    Rrz2MatchesRrz(x, y, z, ref, ln);
  }

  /** On the plane x == 0 at or below the threshold both guards see 0, so the
      evaluator ignores table and logarithm and returns 23.23 y; in particular
      it returns 0 at the origin. */
  lemma FunOnXZeroPlane(y: real, z: real, ref: Lookups, ln: Log)
    requires 2.0 * y <= 1.0
    ensures Fun(0.0, y, z, ref, ln) == Fun5(0.0, y, z) == 23.23 * y
    ensures y == 0.0 ==> Fun(0.0, y, z, ref, ln) == 0.0
  {
  }

  /** A worked evaluation: table (0, 0, 0), (1, 10, 5), (2, 20, 10) at
      (0.5, 0.5, 0.5). The threshold is 1.25, so `Fun1` is taken; T(0.5) = 5,
      and the whole cascade reduces to an affine function of ln(1.25). */
  lemma EvaluateWorkedExample(ln: Log)
    ensures var data := [DataPoint(0.0, 0.0, 0.0), DataPoint(1.0, 10.0, 5.0), DataPoint(2.0, 20.0, 10.0)];
            && WellFormed(data)
            && Evaluate(0.5, 0.5, 0.5, data, ln) == 22.85590625 + 2.285590625 * ln(1.25)
  {
    var data := [DataPoint(0.0, 0.0, 0.0), DataPoint(1.0, 10.0, 5.0), DataPoint(2.0, 20.0, 10.0)];
    var ref := LookupsOf(data);
    InterpolateSpec(0.5, data, ColT);
    assert FirstBracket(data, 1, 0.5);
    assert ref.t(0.5) == 5.0;
    assert Srz(0.5, 0.5, 0.5, ref) == 5.0;
    var s := Srs1(0.5, 0.5, ref, ln);
    assert s == 5.0 + 0.5 * ln(1.25);
    assert Rrz(0.0, 0.5, 0.5, ref, ln) == 0.0;
    assert Rrz(0.5, 0.5, 0.5, ref, ln) == 0.25 * (0.5 * s);
    var k := Krn(0.5, 0.5, 0.5, ref, ln);
    assert k == 73.1389 * (0.125 * s);
    assert Fun(0.5, 0.5, 0.5, ref, ln) == 0.5 * k;
  }
}
