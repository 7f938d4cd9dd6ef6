/**
 * The table shapes and numeric helpers shared by the tank calculator
 * (src/utils/interpolation.ts): the percent-of-fill table read from CSV and
 * the lookup of a capacity from a fill percentage.
 *
 * `linearInterpolate(x, x0, x1, y0, y1)` and `bilinearInterpolateVCF(T, rho, grid)`
 * are used by the calculator but their bodies are not part of this model: they
 * are passed in as functions. Where a property needs the two-point line, it
 * says so with the explicitly flagged assumption `IsTwoPointLine`.
 */
module Interpolation {
  import opened Results
  import opened Search
  import opened Text

  /** The product-temperature correction grid: temperatures × densities. */
  datatype VcfGrid = VcfGrid(temperatures: seq<real>, densities: seq<real>, values: seq<seq<real>>)

  /** One row of the pressure correction table. */
  datatype PcfRow = PcfRow(pressure: real, factor: real)

  /** One row of the shell correction table. */
  datatype ScfRow = ScfRow(temperature: real, factor: real)

  /** One row of the height-to-capacity calibration table. */
  datatype HeightCapacityRow = HeightCapacityRow(heightMm: real, capacityL: real)

  /** One row of the percent-of-fill table. */
  datatype PercentHeightRow = PercentHeightRow(percent: real, heightMm: real, capacityL: real)

  /** `linearInterpolate(x, x0, x1, y0, y1)`, whose body is not part of this model. */
  type LinearInterpolator = (real, real, real, real, real) -> real

  /** `bilinearInterpolateVCF(T, rho, grid)`, whose body is not part of this model. */
  type VcfInterpolator = (real, real, VcfGrid) -> real

  /** JavaScript's `Number(...)` conversion; `None` stands for `undefined`. */
  type NumberConversion = Option<string> -> real

  /** Litres held by the full tank, per the tank's specification sheet. */
  const TOTAL_CAPACITY: real := 39557.0

  /** The textbook value at `x` of the line through (x0, y0) and (x1, y1); y0 on a degenerate axis. */
  function TwoPointValue(x: real, x0: real, x1: real, y0: real, y1: real): real {
    if x1 == x0 then y0 else y0 + (x - x0) * (y1 - y0) / (x1 - x0)
  }

  /**
   * ASSUMPTION, not a fact of the model: the interpolator behaves as the
   * textbook two-point formula. Only the lemmas that require it rely on it.
   */
  ghost predicate IsTwoPointLine(linearInterpolate: LinearInterpolator) {
    forall x, x0, x1, y0, y1 :: linearInterpolate(x, x0, x1, y0, y1) == TwoPointValue(x, x0, x1, y0, y1)
  }

  /** Between its two points, the line stays between their values: no overshoot. */
  lemma TwoPointBetween(x: real, x0: real, x1: real, y0: real, y1: real)
    requires x0 <= x <= x1
    ensures y0 <= y1 ==> y0 <= TwoPointValue(x, x0, x1, y0, y1) <= y1
    ensures y1 <= y0 ==> y1 <= TwoPointValue(x, x0, x1, y0, y1) <= y0
  {
    if x1 != x0 {
      var d := x1 - x0;
      var t := (x - x0) / d;
      assert t * d == x - x0;
      assert 0.0 <= t;
      assert (1.0 - t) * d == x1 - x;
      assert t <= 1.0;
      assert (x - x0) * (y1 - y0) / d == t * (y1 - y0);
      ScaledWithin(t, y1 - y0);
    }
  }

  /** A fraction in [0, 1] of a difference lies between 0 and that difference. */
  lemma ScaledWithin(t: real, e: real)
    requires 0.0 <= t <= 1.0
    ensures 0.0 <= e ==> 0.0 <= t * e <= e
    ensures e <= 0.0 ==> e <= t * e <= 0.0
  {
  }

  /** Halfway between the two points, the line takes the average of their values. */
  lemma TwoPointMidpoint(x0: real, x1: real, y0: real, y1: real)
    requires x0 != x1
    ensures TwoPointValue((x0 + x1) / 2.0, x0, x1, y0, y1) == (y0 + y1) / 2.0
  {
  }

  /** The textbook formula satisfies the assumption, so the assumption can be met. */
  lemma TwoPointValueIsTwoPointLine()
    ensures IsTwoPointLine(TwoPointValue)
  {
  }

  // ---------------------------------------------------------------------------
  // parsePercentHeightCsv
  // ---------------------------------------------------------------------------

  /** One CSV line: column 0 is the percent, column 1 the height; the capacity follows from the percent. */
  function ParsePercentHeightRow(line: string, toNumber: NumberConversion): (row: PercentHeightRow)
    ensures row.percent == toNumber(Some(Split(line, ',')[0]))
    ensures row.capacityL == row.percent / 100.0 * TOTAL_CAPACITY
  {
    var parts := Split(line, ',');
    var percent := toNumber(Some(parts[0]));
    var heightMm := toNumber(if |parts| > 1 then Some(parts[1]) else None);
    PercentHeightRow(percent, heightMm, percent / 100.0 * TOTAL_CAPACITY)
  }

  /** `lines.map(...)`: one row per line, in order. */
  function ParseRows(lines: seq<string>, toNumber: NumberConversion): (rows: seq<PercentHeightRow>)
    ensures |rows| == |lines|
    ensures forall k :: 0 <= k < |lines| ==> rows[k] == ParsePercentHeightRow(lines[k], toNumber)
  {
    seq(|lines|, k requires 0 <= k < |lines| => ParsePercentHeightRow(lines[k], toNumber))
  }

  /**
   * `parsePercentHeightCsv(raw)`: trim, split into lines, drop the header line,
   * skip empty lines and read one row per remaining line.
   */
  function ParsePercentHeightCsv(raw: string, toNumber: NumberConversion): (rows: seq<PercentHeightRow>)
    ensures |rows| <= |SplitLines(Trim(raw))| - 1
    ensures forall k :: 0 <= k < |rows| ==> rows[k].capacityL == rows[k].percent / 100.0 * TOTAL_CAPACITY
  {
    ParseRows(DropEmpty(SplitLines(Trim(raw))[1..]), toNumber)
  }

  /** `row` is what some non-empty line of `lines` reads as. */
  ghost predicate ReadFromSomeLine(row: PercentHeightRow, lines: seq<string>, toNumber: NumberConversion) {
    exists line :: line in lines && line != [] && row == ParsePercentHeightRow(line, toNumber)
  }

  /** Every row is read from some non-empty line after the header of the trimmed text. */
  lemma RowsComeFromDataLines(raw: string, toNumber: NumberConversion)
    ensures forall k :: 0 <= k < |ParsePercentHeightCsv(raw, toNumber)| ==>
              ReadFromSomeLine(ParsePercentHeightCsv(raw, toNumber)[k], SplitLines(Trim(raw))[1..], toNumber)
  {
    var body := SplitLines(Trim(raw))[1..];
    var lines := DropEmpty(body);
    var rows := ParsePercentHeightCsv(raw, toNumber);
    assert rows == ParseRows(lines, toNumber);
    forall k | 0 <= k < |rows| ensures ReadFromSomeLine(rows[k], body, toNumber) {
      assert lines[k] in lines;
      assert lines[k] in body && lines[k] != [] && rows[k] == ParsePercentHeightRow(lines[k], toNumber);
    }
  }

  /**
   * The capacity comes from column 0 only: a line `a,b,c` gives the capacity of
   * percent `a`, whatever its height column `b` and any capacity column `c` say.
   */
  lemma CapacityIgnoresOtherColumns(a: string, b: string, c: string, toNumber: NumberConversion)
    requires ',' !in a && ',' !in b
    ensures ParsePercentHeightRow(a + "," + b + "," + c, toNumber).capacityL
            == toNumber(Some(a)) / 100.0 * TOTAL_CAPACITY
    ensures ParsePercentHeightRow(a + "," + b + "," + c, toNumber).heightMm == toNumber(Some(b))
  {
    SplitAfterPiece(a, ',', b + "," + c);
    SplitAfterPiece(b, ',', c);
    assert a + "," + b + "," + c == a + [','] + (b + [','] + c);
  }

  /** A character that is not whitespace, at the start of `s`. */
  predicate StartsSolid(s: string) {
    s != [] && !IsWhitespace(s[0])
  }

  /** A character that is not whitespace, at the end of `s`. */
  predicate EndsSolid(s: string) {
    s != [] && !IsWhitespace(s[|s| - 1])
  }

  /**
   * A file made of a header line and data lines, joined by LF or by CRLF,
   * reads back as one row per non-empty data line, in order: the header is
   * dropped and empty lines are skipped. With LF breaks, no line but the last
   * may end in a carriage return, which `\r?\n` would take as part of the break.
   */
  lemma OneRowPerDataLine(header: string, data: seq<string>, crlf: bool, toNumber: NumberConversion)
    requires StartsSolid(header)
    requires EndsSolid(([header] + data)[|data|])
    requires forall k :: 0 <= k < |data| + 1 ==> '\n' !in ([header] + data)[k]
    requires !crlf ==> forall k :: 0 <= k < |data| ==>
               ([header] + data)[k] == [] || ([header] + data)[k][|([header] + data)[k]| - 1] != '\r'
    ensures ParsePercentHeightCsv(JoinLines([header] + data, if crlf then "\r\n" else "\n"), toNumber)
            == ParseRows(DropEmpty(data), toNumber)
  {
    var all := [header] + data;
    var lineBreak := if crlf then "\r\n" else "\n";
    var raw := JoinLines(all, lineBreak);
    JoinLinesLast(all, lineBreak);
    assert raw[0] == header[0] by {
      if |all| > 1 {
        assert raw == header + lineBreak + JoinLines(all[1..], lineBreak);
      }
    }
    TrimKeeps(raw);
    SplitLinesOfJoin(all, crlf);
    assert all[1..] == data;
  }

  // ---------------------------------------------------------------------------
  // interpolateCapacityFromPercent
  // ---------------------------------------------------------------------------

  /** The percent column of the table. */
  function Percents(table: seq<PercentHeightRow>): (keys: seq<real>)
    ensures |keys| == |table|
    ensures forall i :: 0 <= i < |table| ==> keys[i] == table[i].percent
  {
    seq(|table|, i requires 0 <= i < |table| => table[i].percent)
  }

  /**
   * The pair of rows to interpolate between: the first adjacent pair whose
   * percents enclose `percent`, or the first and the last row when none does.
   */
  function PercentBracket(percent: real, table: seq<PercentHeightRow>): (pair: (PercentHeightRow, PercentHeightRow))
    requires table != []
  {
    match FirstBracket(Percents(table), percent)
    case Some(i) => (table[i], table[i + 1])
    case None => (table[0], table[|table| - 1])
  }

  /** The capacity that `interpolateCapacityFromPercent(percent, table)` returns. */
  function CapacityFromPercent(percent: real, table: seq<PercentHeightRow>, linearInterpolate: LinearInterpolator): (v: real)
    ensures table == [] ==> v == 0.0
  {
    if table == [] then 0.0
    else match FirstMatch(Percents(table), percent)
      case Some(i) => table[i].capacityL
      case None =>
        var (lower, upper) := PercentBracket(percent, table);
        if percent <= lower.percent then lower.capacityL
        else if percent >= upper.percent then upper.capacityL
        else linearInterpolate(percent, lower.percent, upper.percent, lower.capacityL, upper.capacityL)
  }

  /** The first row whose percent equals the query gives its capacity, before any bracketing. */
  lemma PercentExactMatch(percent: real, table: seq<PercentHeightRow>, linearInterpolate: LinearInterpolator, i: nat)
    requires i < |table| && table[i].percent == percent
    requires forall j :: 0 <= j < i ==> table[j].percent != percent
    ensures CapacityFromPercent(percent, table, linearInterpolate) == table[i].capacityL
  {
  }

  /**
   * Without an exact match, the first enclosing pair (i, i + 1) is used, the
   * query lies strictly inside it and the result interpolates over it.
   */
  lemma PercentBracketInterpolates(percent: real, table: seq<PercentHeightRow>, linearInterpolate: LinearInterpolator, i: nat)
    requires forall j :: 0 <= j < |table| ==> table[j].percent != percent
    requires Brackets(Percents(table), i, percent)
    requires forall j :: 0 <= j < i ==> !Brackets(Percents(table), j, percent)
    ensures table[i].percent < percent < table[i + 1].percent
    ensures CapacityFromPercent(percent, table, linearInterpolate)
            == linearInterpolate(percent, table[i].percent, table[i + 1].percent, table[i].capacityL, table[i + 1].capacityL)
  {
  }

  /**
   * Without an exact match or an enclosing pair, the result is clamped to the
   * first or the last row's capacity: the fallback pair is never extrapolated.
   */
  lemma PercentOutsideClamps(percent: real, table: seq<PercentHeightRow>, linearInterpolate: LinearInterpolator)
    requires table != []
    requires forall j :: 0 <= j < |table| ==> table[j].percent != percent
    requires forall j :: 0 <= j < |table| ==> !Brackets(Percents(table), j, percent)
    ensures percent <= table[0].percent ==> CapacityFromPercent(percent, table, linearInterpolate) == table[0].capacityL
    ensures table[0].percent < percent ==> CapacityFromPercent(percent, table, linearInterpolate) == table[|table| - 1].capacityL
  {
    var keys := Percents(table);
    if keys[0] < percent < keys[|keys| - 1] {
      InteriorHasBracket(keys, percent);
    }
  }

  /**
   * Under the two-point assumption the result never leaves the table: it lies
   * between the capacities of two of its rows.
   */
  lemma PercentWithinTable(percent: real, table: seq<PercentHeightRow>, linearInterpolate: LinearInterpolator)
    requires table != [] && IsTwoPointLine(linearInterpolate)
    ensures exists i, k :: 0 <= i < |table| && 0 <= k < |table|
              && table[i].capacityL <= CapacityFromPercent(percent, table, linearInterpolate) <= table[k].capacityL
  {
    var v := CapacityFromPercent(percent, table, linearInterpolate);
    var keys := Percents(table);
    match FirstMatch(keys, percent)
    case Some(i) =>
      assert table[i].capacityL <= v <= table[i].capacityL;
    case None =>
      match FirstBracket(keys, percent)
      case Some(i) =>
        var a, b := table[i], table[i + 1];
        PercentBracketInterpolates(percent, table, linearInterpolate, i);
        TwoPointBetween(percent, a.percent, b.percent, a.capacityL, b.capacityL);
        if a.capacityL <= b.capacityL {
          assert a.capacityL <= v <= b.capacityL;
        } else {
          assert b.capacityL <= v <= a.capacityL;
        }
      case None =>
        PercentOutsideClamps(percent, table, linearInterpolate);
        if percent <= table[0].percent {
          assert table[0].capacityL <= v <= table[0].capacityL;
        } else {
          assert table[|table| - 1].capacityL <= v <= table[|table| - 1].capacityL;
        }
  }

  /**
   * `interpolateCapacityFromPercent(percent, table)`: 0 for an empty table,
   * the exact row's capacity when one matches, otherwise the bracketing pair
   * clamped at its ends and interpolated in between.
   */
  method InterpolateCapacityFromPercent(percent: real, table: seq<PercentHeightRow>, linearInterpolate: LinearInterpolator)
    returns (v: real)
    ensures v == CapacityFromPercent(percent, table, linearInterpolate)
  {
    if |table| == 0 {
      return 0.0;
    }
    for k := 0 to |table|
      invariant forall j :: 0 <= j < k ==> table[j].percent != percent
    {
      if table[k].percent == percent {
        return table[k].capacityL;
      }
    }
    var lower, upper := table[0], table[|table| - 1];
    for i := 0 to |table| - 1
      invariant forall j :: 0 <= j < i ==> !Brackets(Percents(table), j, percent)
      invariant lower == table[0] && upper == table[|table| - 1]
    {
      if table[i].percent <= percent && table[i + 1].percent >= percent {
        assert Brackets(Percents(table), i, percent);
        lower, upper := table[i], table[i + 1];
        break;
      }
    }
    if percent <= lower.percent {
      return lower.capacityL;
    }
    if percent >= upper.percent {
      return upper.capacityL;
    }
    return linearInterpolate(percent, lower.percent, upper.percent, lower.capacityL, upper.capacityL);
  }
}
