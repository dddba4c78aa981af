/**
 The reference table of the evaluator: an ordered sequence of samples
 (x, T, U) and the piecewise-linear lookup of either tabulated column at an
 arbitrary coordinate. The lookup scans adjacent pairs from the low end, the
 first pair that brackets the query wins, and a query that no pair brackets
 falls back to the LAST sample (there is no low clamp).

 Doubles are modelled as `real`; rounding, NaN and infinities are not part of
 this model.
 */
module ReferenceTable {

  /** One sample of the table: a coordinate and the two values tabulated at it. */
  datatype DataPoint = DataPoint(x: real, T: real, U: real)

  /** Which tabulated value a lookup reads (the `isT` flag of the lookup). */
  datatype Column = ColT | ColU

  type Table = seq<DataPoint>

  function Field(p: DataPoint, c: Column): real {
    match c
    case ColT => p.T
    case ColU => p.U
  }

  function Last(data: Table): DataPoint
    requires |data| > 0
  {
    data[|data| - 1]
  }

  function Min(a: real, b: real): real {
    if a <= b then a else b
  }

  function Max(a: real, b: real): real {
    if a <= b then b else a
  }

  /** Tables on which every lookup is defined: the last sample must exist,
      and no two neighbours may share a coordinate. The lookup divides zero by
      zero only when its scan reaches a flat pair with the query on it; this
      condition is stronger, and also rules out tables such as an ascending
      one with a repeated interior coordinate, where an earlier pair always
      matches first. */
  predicate WellFormed(data: Table) {
    && |data| > 0
    // adjacent pairs (j == i + 1), over two indices so no trigger loops on data[i - 1]
    && forall i, j :: 0 <= i < |data| && 0 <= j < |data| && j == i + 1 ==> data[i].x != data[j].x
  }

  /** Coordinates strictly ascending: the shape the table files are meant to have. */
  predicate StrictlyIncreasing(data: Table) {
    forall i, j :: 0 <= i < j < |data| ==> data[i].x < data[j].x
  }

  /** The pair (i - 1, i) encloses the query, bounds included. */
  predicate Brackets(data: Table, i: int, q: real) {
    1 <= i < |data| && data[i - 1].x <= q <= data[i].x
  }

  /** Among the pairs ending at index lo or above, (k - 1, k) is the lowest
      one enclosing the query. */
  predicate FirstBracketFrom(data: Table, lo: int, k: int, q: real) {
    lo <= k && Brackets(data, k, q) && forall j :: lo <= j < k ==> !Brackets(data, j, q)
  }

  /** No pair ending at index lo or above encloses the query. */
  predicate NoBracketFrom(data: Table, lo: int, q: real) {
    forall k :: lo <= k < |data| ==> !Brackets(data, k, q)
  }

  /** The pair (i - 1, i) is the lowest pair enclosing the query. */
  predicate FirstBracket(data: Table, i: int, q: real) {
    FirstBracketFrom(data, 1, i, q)
  }

  /** No adjacent pair encloses the query. */
  predicate NoBracket(data: Table, q: real) {
    NoBracketFrom(data, 1, q)
  }

  /** The straight line through (x0, y0) and (x1, y1), evaluated at q, with
      the operations grouped as the lookup groups them. */
  function Lerp(x0: real, y0: real, x1: real, y1: real, q: real): (r: real)
    requires x0 != x1
    ensures q == x0 ==> r == y0
    ensures q == x1 ==> r == y1
    ensures x0 < x1 && x0 <= q <= x1 ==> Min(y0, y1) <= r <= Max(y0, y1)
  {
    LerpStaysBetween(x0, y0, x1, y1, q);
    y0 + (y1 - y0) * (q - x0) / (x1 - x0)
  }

  lemma LerpStaysBetween(x0: real, y0: real, x1: real, y1: real, q: real)
    requires x0 != x1
    ensures q == x1 ==> y0 + (y1 - y0) * (q - x0) / (x1 - x0) == y1
    ensures x0 < x1 && x0 <= q <= x1 ==>
              Min(y0, y1) <= y0 + (y1 - y0) * (q - x0) / (x1 - x0) <= Max(y0, y1)
  {
    var d := x1 - x0;
    var s := q - x0;
    var a := y1 - y0;
    RegroupDivision(a, s, d);
    var t := s / d;
    assert y0 + (y1 - y0) * (q - x0) / (x1 - x0) == y0 + a * t;
    if q == x1 {
      SpanOverItself(d);
      assert t == 1.0;
    }
    if x0 < x1 && x0 <= q <= x1 {
      FractionOfSpan(s, d);
      ScaleByFraction(a, t);
    }
  }

  /** A non-zero span divided by itself is 1. */
  lemma SpanOverItself(d: real)
    requires d != 0.0
    ensures d / d == 1.0
  {
  }

  /** (a * s) / d == a * (s / d). */
  lemma RegroupDivision(a: real, s: real, d: real)
    requires d != 0.0
    ensures a * s / d == a * (s / d)
  {
  }

  /** A part of a positive span, divided by the span, is a fraction in [0, 1]. */
  lemma FractionOfSpan(s: real, d: real)
    requires 0.0 < d && 0.0 <= s <= d
    ensures 0.0 <= s / d <= 1.0
  {
  }

  /** Scaling by a fraction in [0, 1] keeps a value between 0 and itself. */
  lemma ScaleByFraction(a: real, t: real)
    requires 0.0 <= t <= 1.0
    ensures 0.0 <= a ==> 0.0 <= a * t <= a
    ensures a <= 0.0 ==> a <= a * t <= 0.0
  {
    assert a * t + a * (1.0 - t) == a;
  }

  /** Interpolation of column c between samples i - 1 and i. */
  function LerpAt(data: Table, i: int, c: Column, q: real): real
    requires WellFormed(data) && 1 <= i < |data|
  {
    Lerp(data[i - 1].x, Field(data[i - 1], c), data[i].x, Field(data[i], c), q)
  }

  /** The lookup loop, from index i upward: the first enclosing pair (k - 1, k)
      with k >= i is interpolated; past the end the last sample is returned.
      `ScanFromFindsFirstBracket` states what it computes. */
  function ScanFrom(q: real, data: Table, c: Column, i: nat): real
    requires WellFormed(data) && 1 <= i <= |data|
    decreases |data| - i
  {
    if i == |data| then Field(Last(data), c)
    else if q >= data[i - 1].x && q <= data[i].x then LerpAt(data, i, c, q)
    else ScanFrom(q, data, c, i + 1)
  }

  /** The table lookup; `InterpolateSpec` states what it computes. */
  function Interpolate(q: real, data: Table, c: Column): real
    requires WellFormed(data)
  {
    ScanFrom(q, data, c, 1)
  }

  /** The scan from index i returns the interpolation in the lowest enclosing
      pair at or above i, and the last sample when there is none. */
  lemma {:induction false} ScanFromFindsFirstBracket(q: real, data: Table, c: Column, i: nat)
    requires WellFormed(data) && 1 <= i <= |data|
    ensures NoBracketFrom(data, i, q) ==> ScanFrom(q, data, c, i) == Field(Last(data), c)
    ensures forall k :: FirstBracketFrom(data, i, k, q) ==> ScanFrom(q, data, c, i) == LerpAt(data, k, c, q)
    decreases |data| - i
  {
    if i < |data| {
      if q >= data[i - 1].x && q <= data[i].x {
        assert Brackets(data, i, q);
      } else {
        ScanFromFindsFirstBracket(q, data, c, i + 1);
        assert !Brackets(data, i, q);
      }
    }
  }

  /** The lookup interpolates in the lowest enclosing pair, and returns the
      last sample's value when no pair encloses the query. */
  lemma InterpolateSpec(q: real, data: Table, c: Column)
    requires WellFormed(data)
    ensures NoBracket(data, q) ==> Interpolate(q, data, c) == Field(Last(data), c)
    ensures forall i :: FirstBracket(data, i, q) ==> Interpolate(q, data, c) == LerpAt(data, i, c, q)
    ensures NoBracket(data, q) || exists i :: FirstBracket(data, i, q)
  {
    ScanFromFindsFirstBracket(q, data, c, 1);
    if !NoBracket(data, q) {
      var i :| 1 <= i < |data| && Brackets(data, i, q);
      FirstBracketExists(data, i, q);
    }
  }

  /** Lookup of the T column. */
  function T(q: real, data: Table): real
    requires WellFormed(data)
  {
    Interpolate(q, data, ColT)
  }

  /** Lookup of the U column. */
  function U(q: real, data: Table): real
    requires WellFormed(data)
  {
    Interpolate(q, data, ColU)
  }

  /** Whenever some pair encloses the query, a lowest one exists, at or below it;
      so every lookup takes exactly one of the two outcomes of `Interpolate`. */
  lemma {:induction false} FirstBracketExists(data: Table, i: int, q: real)
    requires Brackets(data, i, q)
    ensures exists k :: k <= i && FirstBracket(data, k, q)
    decreases i
  {
    if forall j :: 1 <= j < i ==> !Brackets(data, j, q) {
      assert FirstBracket(data, i, q);
    } else {
      var j :| 1 <= j < i && Brackets(data, j, q);
      FirstBracketExists(data, j, q);
    }
  }

  /** A one-sample table answers every query with that sample. */
  lemma SingleSampleLookup(data: Table, q: real, c: Column)
    requires WellFormed(data) && |data| < 2
    ensures Interpolate(q, data, c) == Field(data[0], c)
  {
    InterpolateSpec(q, data, c);
  }

  /** The lookup never leaves the range of the column it reads: it returns
      either a sample's value or a point between two samples' values. */
  lemma InterpolateWithinRange(data: Table, q: real, c: Column, lo: real, hi: real)
    requires WellFormed(data)
    requires forall i :: 0 <= i < |data| ==> lo <= Field(data[i], c) <= hi
    ensures lo <= Interpolate(q, data, c) <= hi
  {
    InterpolateSpec(q, data, c);
    if !NoBracket(data, q) {
      var i :| Brackets(data, i, q);
      FirstBracketExists(data, i, q);
      var k :| k <= i && FirstBracket(data, k, q);
      assert lo <= Field(data[k - 1], c) <= hi;
      assert lo <= Field(data[k], c) <= hi;
    }
  }

  /** Inside the lowest enclosing pair the result lies between the pair's values. */
  lemma InterpolateWithinBracket(data: Table, i: int, q: real, c: Column)
    requires WellFormed(data) && FirstBracket(data, i, q)
    ensures Min(Field(data[i - 1], c), Field(data[i], c)) <= Interpolate(q, data, c)
    ensures Interpolate(q, data, c) <= Max(Field(data[i - 1], c), Field(data[i], c))
  {
    InterpolateSpec(q, data, c);
    assert data[i - 1].x != data[i].x;
  }

  /** In a strictly increasing table, a query at a sample's coordinate returns
      that sample's value exactly. */
  lemma {:induction false} InterpolateAtSample(data: Table, k: int, c: Column)
    requires WellFormed(data) && StrictlyIncreasing(data)
    requires 0 <= k < |data|
    ensures Interpolate(data[k].x, data, c) == Field(data[k], c)
  {
    var q := data[k].x;
    InterpolateSpec(q, data, c);
    if k == 0 {
      if |data| > 1 {
        assert FirstBracket(data, 1, q);
      } else {
        assert NoBracket(data, q);
      }
    } else {
      assert data[k - 1].x < data[k].x;
      forall j | 1 <= j < k
        ensures !Brackets(data, j, q)
      {
        assert data[j].x < data[k].x;
      }
      assert FirstBracket(data, k, q);
    }
  }

  /** Above the top of a strictly increasing table the last sample is returned. */
  lemma InterpolateAboveTable(data: Table, q: real, c: Column)
    requires WellFormed(data) && StrictlyIncreasing(data)
    requires q > Last(data).x
    ensures Interpolate(q, data, c) == Field(Last(data), c)
  {
    InterpolateSpec(q, data, c);
    forall i | 1 <= i < |data| - 1
      ensures !Brackets(data, i, q)
    {
      assert data[i].x < Last(data).x;
    }
  }

  /** Below the bottom of a strictly increasing table the LAST sample is
      returned as well: there is no low clamp. */
  lemma InterpolateBelowTable(data: Table, q: real, c: Column)
    requires WellFormed(data) && StrictlyIncreasing(data)
    requires q < data[0].x
    ensures Interpolate(q, data, c) == Field(Last(data), c)
  {
    InterpolateSpec(q, data, c);
    forall i | 2 <= i < |data|
      ensures !Brackets(data, i, q)
    {
      assert data[0].x < data[i - 1].x;
    }
  }

  /** Tables that agree on the coordinates and on column c give the same lookup
      of column c, whatever their other column holds. */
  lemma InterpolateReadsOneColumn(d1: Table, d2: Table, q: real, c: Column)
    requires WellFormed(d1) && |d1| == |d2|
    requires forall i :: 0 <= i < |d1| ==> d1[i].x == d2[i].x && Field(d1[i], c) == Field(d2[i], c)
    ensures WellFormed(d2)
    ensures Interpolate(q, d1, c) == Interpolate(q, d2, c)
  {
    InterpolateSpec(q, d1, c);
    InterpolateSpec(q, d2, c);
    assert forall i :: Brackets(d1, i, q) <==> Brackets(d2, i, q);
    if !NoBracket(d1, q) {
      var i :| Brackets(d1, i, q);
      FirstBracketExists(d1, i, q);
      var k :| k <= i && FirstBracket(d1, k, q);
      assert FirstBracket(d2, k, q);
    }
  }

  /** The T lookup ignores the U column. */
  lemma TIgnoresU(d1: Table, d2: Table, q: real)
    requires WellFormed(d1) && |d1| == |d2|
    requires forall i :: 0 <= i < |d1| ==> d1[i].x == d2[i].x && d1[i].T == d2[i].T
    ensures WellFormed(d2) && T(q, d1) == T(q, d2)
  {
    InterpolateReadsOneColumn(d1, d2, q, ColT);
  }

  /** The U lookup ignores the T column. */
  lemma UIgnoresT(d1: Table, d2: Table, q: real)
    requires WellFormed(d1) && |d1| == |d2|
    requires forall i :: 0 <= i < |d1| ==> d1[i].x == d2[i].x && d1[i].U == d2[i].U
    ensures WellFormed(d2) && U(q, d1) == U(q, d2)
  {
    InterpolateReadsOneColumn(d1, d2, q, ColU);
  }

  /** A two-sample table (0, 0, 0), (10, 100, 50): midway, half of each value;
      above the table the last sample; below it the last sample too, not the first. */
  lemma TwoSampleLookups()
    ensures var data := [DataPoint(0.0, 0.0, 0.0), DataPoint(10.0, 100.0, 50.0)];
            && WellFormed(data)
            && T(5.0, data) == 50.0 && U(5.0, data) == 25.0
            && T(50.0, data) == 100.0
            && T(-5.0, data) == 100.0 && T(-5.0, data) != data[0].T
  {
    var data := [DataPoint(0.0, 0.0, 0.0), DataPoint(10.0, 100.0, 50.0)];
    assert FirstBracket(data, 1, 5.0);
    InterpolateSpec(5.0, data, ColT);
    InterpolateSpec(5.0, data, ColU);
    InterpolateSpec(50.0, data, ColT);
    InterpolateSpec(-5.0, data, ColT);
    assert NoBracket(data, 50.0);
    assert NoBracket(data, -5.0);
  }
}
