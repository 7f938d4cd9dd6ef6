/**
 * The tank calculator's correction pipeline (src/utils/calculations.ts):
 * table lookups for the product-temperature factor (VCF), the pressure factor
 * (PCF), the shell factor (SCF) and the reference volume at a liquid height,
 * and `calculate`, which validates the inputs and combines the lookups into
 * a corrected volume and a mass.
 *
 * The dataset is a parameter of every operation rather than a module-level
 * constant built from CSV assets.
 */
module Calculations {
  import opened Results
  import opened Search
  import opened Interpolation

  /** The four reference tables. */
  datatype Dataset = Dataset(
    vcf: VcfGrid,
    pcf: seq<PcfRow>,
    scf: seq<ScfRow>,
    heightCapacity: seq<HeightCapacityRow>)

  /** The calculator's inputs; an absent pressure falls back to the nominal one. */
  datatype CalcInputs = CalcInputs(
    density: real,             // kg/L
    productTemperature: real,  // °C, for the VCF
    shellTemperature: real,    // °C, for the SCF exact match
    heightMm: real,            // mm, for the reference volume
    pressure: Option<real>)    // bar

  datatype ClampFlags = ClampFlags(density: bool, temperature: bool, pressure: bool, height: bool)

  datatype CalcResult = CalcResult(
    usedDensity: real,
    usedProductTemperature: real,
    usedShellTemperature: real,
    vcf: real,
    scf: real,
    referenceVolume: real,
    correctedVolume: real,
    pcf: real,
    correctedVolumeWithPressure: real,
    mass: real,
    clamped: ClampFlags)

  /** The errors the calculator throws. */
  datatype CalcError =
    | DensityOutOfRange            // "Product density out of supported range."
    | ProductTemperatureOutOfRange // "Product temperature out of supported range."
    | PressureOutOfRange           // "Pressure out of supported range."
    | ShellTemperatureNotFound     // "Shell temperature not found in SCF table. ..."
    | HeightTableEmpty             // "Height-capacity table is empty."
    | PressureTableEmpty           // a field read of the missing first row of an empty PCF table

  /** An inclusive range of supported values. */
  datatype Range = Range(min: real, max: real) {
    predicate Contains(x: real) {
      min <= x <= max
    }
  }

  datatype Ranges = Ranges(density: Range, productTemperature: Range, pressure: Range, heightMm: Range)

  /** The supported input ranges; the height range is advisory and never enforced. */
  const RANGES: Ranges := Ranges(
    Range(0.5, 0.59),
    Range(0.0, 30.0),
    Range(10.0, 24.0),
    Range(0.0, 1114.0))

  /** The nominal operating pressure, in bar, used when none is given. */
  const DEFAULT_PRESSURE: real := 17.0

  /** `inputs.pressure ?? 17`. */
  function UsedPressure(inputs: CalcInputs): (p: real)
    ensures inputs.pressure.Some? ==> p == inputs.pressure.value
    ensures inputs.pressure.None? ==> p == 17.0 && RANGES.pressure.Contains(p)
  {
    match inputs.pressure
    case Some(p) => p
    case None => DEFAULT_PRESSURE
  }

  /** Density, product temperature and (resolved) pressure all lie in their ranges; the height plays no part. */
  predicate InputsInRange(inputs: CalcInputs) {
    && RANGES.density.Contains(inputs.density)
    && RANGES.productTemperature.Contains(inputs.productTemperature)
    && RANGES.pressure.Contains(UsedPressure(inputs))
  }

  function Pressures(rows: seq<PcfRow>): (keys: seq<real>)
    ensures |keys| == |rows|
    ensures forall i :: 0 <= i < |rows| ==> keys[i] == rows[i].pressure
  {
    seq(|rows|, i requires 0 <= i < |rows| => rows[i].pressure)
  }

  function ShellTemperatures(rows: seq<ScfRow>): (keys: seq<real>)
    ensures |keys| == |rows|
    ensures forall i :: 0 <= i < |rows| ==> keys[i] == rows[i].temperature
  {
    seq(|rows|, i requires 0 <= i < |rows| => rows[i].temperature)
  }

  function Heights(rows: seq<HeightCapacityRow>): (keys: seq<real>)
    ensures |keys| == |rows|
    ensures forall i :: 0 <= i < |rows| ==> keys[i] == rows[i].heightMm
  {
    seq(|rows|, i requires 0 <= i < |rows| => rows[i].heightMm)
  }

  // ---------------------------------------------------------------------------
  // lookupVCF
  // ---------------------------------------------------------------------------

  /** `lookupVCF(T, rho)`: the VCF grid interpolated at temperature `T` (first) and density `rho` (second). */
  function LookupVCF(T: real, rho: real, dataset: Dataset, bilinearInterpolateVCF: VcfInterpolator): (v: real)
    ensures v == bilinearInterpolateVCF(T, rho, dataset.vcf)
  {
    bilinearInterpolateVCF(T, rho, dataset.vcf)
  }

  // ---------------------------------------------------------------------------
  // lookupSCF
  // ---------------------------------------------------------------------------

  /**
   * The shell correction factor: the factor of the first row whose temperature
   * equals the query exactly; a failure when no row does. No neighbour is used.
   */
  function ScfValue(shellTemp: real, rows: seq<ScfRow>): (r: Result<real, CalcError>)
    ensures r.Ok? <==> exists i :: 0 <= i < |rows| && rows[i].temperature == shellTemp
    ensures r.Err? ==> r.error == ShellTemperatureNotFound
    ensures r.Ok? ==> exists i :: 0 <= i < |rows| && rows[i].temperature == shellTemp
                        && r.value == rows[i].factor
                        && forall j :: 0 <= j < i ==> rows[j].temperature != shellTemp
  {
    match FirstMatch(ShellTemperatures(rows), shellTemp)
    case Some(i) => Ok(rows[i].factor)
    case None => Err(ShellTemperatureNotFound)
  }

  /** `lookupSCF(shellTemp)`: a for-of scan returning on the first exact match, then a throw. */
  method LookupSCF(shellTemp: real, dataset: Dataset) returns (r: Result<real, CalcError>)
    ensures r == ScfValue(shellTemp, dataset.scf)
  {
    var rows := dataset.scf;
    for k := 0 to |rows|
      invariant forall j :: 0 <= j < k ==> rows[j].temperature != shellTemp
    {
      if rows[k].temperature == shellTemp {
        return Ok(rows[k].factor);
      }
    }
    return Err(ShellTemperatureNotFound);
  }

  // ---------------------------------------------------------------------------
  // lookupPCF
  // ---------------------------------------------------------------------------

  /**
   * The pair of rows the pressure factor interpolates over: the first adjacent
   * pair whose pressures enclose `p`, or else the first and the last row.
   */
  function PcfBracket(p: real, rows: seq<PcfRow>): (pair: (PcfRow, PcfRow))
    requires rows != []
  {
    match FirstBracket(Pressures(rows), p)
    case Some(i) => (rows[i], rows[i + 1])
    case None => (rows[0], rows[|rows| - 1])
  }

  /** The pressure correction factor that `lookupPCF(p)` returns; it fails only on an empty table. */
  function PcfValue(p: real, rows: seq<PcfRow>, linearInterpolate: LinearInterpolator): (r: Result<real, CalcError>)
    ensures r.Err? <==> rows == []
    ensures r.Err? ==> r.error == PressureTableEmpty
  {
    if rows == [] then Err(PressureTableEmpty)
    else match FirstMatch(Pressures(rows), p)
      case Some(i) => Ok(rows[i].factor)
      case None =>
        var (lower, upper) := PcfBracket(p, rows);
        Ok(linearInterpolate(p, lower.pressure, upper.pressure, lower.factor, upper.factor))
  }

  /** An exact pressure match returns that row's factor, before any bracketing. */
  lemma PcfExactMatch(p: real, rows: seq<PcfRow>, linearInterpolate: LinearInterpolator, i: nat)
    requires i < |rows| && rows[i].pressure == p
    requires forall j :: 0 <= j < i ==> rows[j].pressure != p
    ensures PcfValue(p, rows, linearInterpolate) == Ok(rows[i].factor)
  {
  }

  /** Without an exact match, the first enclosing pair (i, i + 1) is interpolated over. */
  lemma PcfFirstBracket(p: real, rows: seq<PcfRow>, linearInterpolate: LinearInterpolator, i: nat)
    requires forall j :: 0 <= j < |rows| ==> rows[j].pressure != p
    requires Brackets(Pressures(rows), i, p)
    requires forall j :: 0 <= j < i ==> !Brackets(Pressures(rows), j, p)
    ensures PcfValue(p, rows, linearInterpolate)
            == Ok(linearInterpolate(p, rows[i].pressure, rows[i + 1].pressure, rows[i].factor, rows[i + 1].factor))
  {
  }

  /**
   * Without an exact match or an enclosing pair, the first and the last row
   * are used: the factor is extrapolated over the whole span, not clamped.
   */
  lemma PcfFallsBackToWholeSpan(p: real, rows: seq<PcfRow>, linearInterpolate: LinearInterpolator)
    requires rows != []
    requires forall j :: 0 <= j < |rows| ==> rows[j].pressure != p
    requires forall j :: 0 <= j < |rows| ==> !Brackets(Pressures(rows), j, p)
    ensures PcfValue(p, rows, linearInterpolate)
            == Ok(linearInterpolate(p, rows[0].pressure, rows[|rows| - 1].pressure, rows[0].factor, rows[|rows| - 1].factor))
  {
  }

  /**
   * With strictly increasing pressures, a pressure outside the table's span is
   * extrapolated along the line through the first and the last row.
   */
  lemma PcfOutsideSpanExtrapolates(p: real, rows: seq<PcfRow>, linearInterpolate: LinearInterpolator)
    requires rows != [] && StrictlyIncreasing(Pressures(rows))
    requires p < rows[0].pressure || rows[|rows| - 1].pressure < p
    ensures PcfValue(p, rows, linearInterpolate)
            == Ok(linearInterpolate(p, rows[0].pressure, rows[|rows| - 1].pressure, rows[0].factor, rows[|rows| - 1].factor))
  {
  }

  /**
   * Halfway between two adjacent pressures of a strictly increasing table, the
   * factor is the average of the factors looked up at those two pressures
   * (assuming the two-point interpolation formula).
   */
  lemma PcfMidpointIsAverage(rows: seq<PcfRow>, linearInterpolate: LinearInterpolator, i: nat)
    requires StrictlyIncreasing(Pressures(rows)) && i + 1 < |rows|
    requires IsTwoPointLine(linearInterpolate)
    ensures PcfValue((rows[i].pressure + rows[i + 1].pressure) / 2.0, rows, linearInterpolate)
            == Ok((PcfValue(rows[i].pressure, rows, linearInterpolate).value
                   + PcfValue(rows[i + 1].pressure, rows, linearInterpolate).value) / 2.0)
  {
    var keys := Pressures(rows);
    var a, b := rows[i], rows[i + 1];
    var mid := (a.pressure + b.pressure) / 2.0;
    KeyFoundAtItsIndex(keys, i);
    KeyFoundAtItsIndex(keys, i + 1);
    assert PcfValue(a.pressure, rows, linearInterpolate) == Ok(a.factor);
    assert PcfValue(b.pressure, rows, linearInterpolate) == Ok(b.factor);
    MidpointBracket(keys, i);
    assert PcfBracket(mid, rows) == (a, b);
    assert PcfValue(mid, rows, linearInterpolate)
           == Ok(linearInterpolate(mid, a.pressure, b.pressure, a.factor, b.factor));
    assert keys[i] < keys[i + 1];
    TwoPointMidpoint(a.pressure, b.pressure, a.factor, b.factor);
    assert linearInterpolate(mid, a.pressure, b.pressure, a.factor, b.factor)
           == TwoPointValue(mid, a.pressure, b.pressure, a.factor, b.factor);
  }

  /**
   * `lookupPCF(pressure)`: a scan for an exact match, then a scan for the first
   * enclosing pair that starts from the first/last row and stops at `break`.
   */
  method LookupPCF(pressure: real, dataset: Dataset, linearInterpolate: LinearInterpolator)
    returns (r: Result<real, CalcError>)
    ensures r == PcfValue(pressure, dataset.pcf, linearInterpolate)
  {
    var rows := dataset.pcf;
    for k := 0 to |rows|
      invariant forall j :: 0 <= j < k ==> rows[j].pressure != pressure
    {
      if rows[k].pressure == pressure {
        return Ok(rows[k].factor);
      }
    }
    if |rows| == 0 {
      return Err(PressureTableEmpty);
    }
    var lower, upper := rows[0], rows[|rows| - 1];
    for i := 0 to |rows| - 1
      invariant forall j :: 0 <= j < i ==> !Brackets(Pressures(rows), j, pressure)
      invariant lower == rows[0] && upper == rows[|rows| - 1]
    {
      if pressure >= rows[i].pressure && pressure <= rows[i + 1].pressure {
        assert Brackets(Pressures(rows), i, pressure);
        lower, upper := rows[i], rows[i + 1];
        break;
      }
    }
    return Ok(linearInterpolate(pressure, lower.pressure, upper.pressure, lower.factor, upper.factor));
  }

  // ---------------------------------------------------------------------------
  // lookupReferenceVolumeFromHeight
  // ---------------------------------------------------------------------------

  /**
   * The reference volume at a liquid height: clamped to the first row's
   * capacity at or below the first height and to the last row's at or above the
   * last height; in between, the first enclosing pair, whose lower capacity is
   * taken when both heights are equal and which is interpolated otherwise.
   */
  function ReferenceVolume(heightMm: real, rows: seq<HeightCapacityRow>, linearInterpolate: LinearInterpolator)
    : (r: Result<real, CalcError>)
    ensures r.Err? <==> rows == []
    ensures r.Err? ==> r.error == HeightTableEmpty
    ensures rows != [] && heightMm <= rows[0].heightMm ==> r == Ok(rows[0].capacityL)
    ensures rows != [] && rows[0].heightMm < heightMm && rows[|rows| - 1].heightMm <= heightMm
            ==> r == Ok(rows[|rows| - 1].capacityL)
  {
    if rows == [] then Err(HeightTableEmpty)
    else if heightMm <= rows[0].heightMm then Ok(rows[0].capacityL)
    else if heightMm >= rows[|rows| - 1].heightMm then Ok(rows[|rows| - 1].capacityL)
    else match FirstBracket(Heights(rows), heightMm)
      case Some(i) =>
        var a, b := rows[i], rows[i + 1];
        if a.heightMm == b.heightMm then Ok(a.capacityL)
        else Ok(linearInterpolate(heightMm, a.heightMm, b.heightMm, a.capacityL, b.capacityL))
      case None => Ok(rows[|rows| - 1].capacityL)
  }

  /**
   * A height strictly inside the table always finds an enclosing pair (so the
   * final fallback of the scan is never reached), and the first such pair
   * decides the volume.
   */
  lemma ReferenceVolumeInterior(heightMm: real, rows: seq<HeightCapacityRow>, linearInterpolate: LinearInterpolator)
    requires rows != [] && rows[0].heightMm < heightMm < rows[|rows| - 1].heightMm
    ensures exists i: nat :: Brackets(Heights(rows), i, heightMm)
              && (forall j :: 0 <= j < i ==> !Brackets(Heights(rows), j, heightMm))
              && ReferenceVolume(heightMm, rows, linearInterpolate)
                 == Ok(if rows[i].heightMm == rows[i + 1].heightMm then rows[i].capacityL
                       else linearInterpolate(heightMm, rows[i].heightMm, rows[i + 1].heightMm, rows[i].capacityL, rows[i + 1].capacityL))
  {
    InteriorHasBracket(Heights(rows), heightMm);
    var i := FirstBracket(Heights(rows), heightMm).value;
    assert Brackets(Heights(rows), i, heightMm);
  }

  /**
   * Under the two-point assumption the reference volume never leaves the
   * table: it lies between the capacities of two of its rows.
   */
  lemma ReferenceVolumeWithinTable(heightMm: real, rows: seq<HeightCapacityRow>, linearInterpolate: LinearInterpolator)
    requires rows != [] && IsTwoPointLine(linearInterpolate)
    ensures exists i, k :: 0 <= i < |rows| && 0 <= k < |rows|
              && rows[i].capacityL <= ReferenceVolume(heightMm, rows, linearInterpolate).value <= rows[k].capacityL
  {
    var v := ReferenceVolume(heightMm, rows, linearInterpolate).value;
    var last := |rows| - 1;
    if heightMm <= rows[0].heightMm {
      assert rows[0].capacityL <= v <= rows[0].capacityL;
    } else if heightMm >= rows[last].heightMm {
      assert rows[last].capacityL <= v <= rows[last].capacityL;
    } else {
      InteriorHasBracket(Heights(rows), heightMm);
      var i := FirstBracket(Heights(rows), heightMm).value;
      var a, b := rows[i], rows[i + 1];
      if a.heightMm == b.heightMm {
        assert a.capacityL <= v <= a.capacityL;
      } else {
        TwoPointBetween(heightMm, a.heightMm, b.heightMm, a.capacityL, b.capacityL);
        if a.capacityL <= b.capacityL {
          assert a.capacityL <= v <= b.capacityL;
        } else {
          assert b.capacityL <= v <= a.capacityL;
        }
      }
    }
  }

  /**
   * `lookupReferenceVolumeFromHeight(heightMm)`: the empty-table error, the two
   * clamps, then a scan for the first enclosing pair, with the last capacity
   * as the fallback after the scan.
   */
  method LookupReferenceVolumeFromHeight(heightMm: real, dataset: Dataset, linearInterpolate: LinearInterpolator)
    returns (r: Result<real, CalcError>)
    ensures r == ReferenceVolume(heightMm, dataset.heightCapacity, linearInterpolate)
  {
    var rows := dataset.heightCapacity;
    if |rows| == 0 {
      return Err(HeightTableEmpty);
    }
    if heightMm <= rows[0].heightMm {
      return Ok(rows[0].capacityL);
    }
    if heightMm >= rows[|rows| - 1].heightMm {
      return Ok(rows[|rows| - 1].capacityL);
    }
    for i := 0 to |rows| - 1
      invariant forall j :: 0 <= j < i ==> !Brackets(Heights(rows), j, heightMm)
    {
      var a, b := rows[i], rows[i + 1];
      if heightMm >= a.heightMm && heightMm <= b.heightMm {
        assert Brackets(Heights(rows), i, heightMm);
        if a.heightMm == b.heightMm {
          return Ok(a.capacityL);
        }
        return Ok(linearInterpolate(heightMm, a.heightMm, b.heightMm, a.capacityL, b.capacityL));
      }
    }
    return Ok(rows[|rows| - 1].capacityL);
  }

  // ---------------------------------------------------------------------------
  // calculate
  // ---------------------------------------------------------------------------

  /**
   * `calculate(inputs)`: resolve the pressure (17 bar by default); reject, in
   * this order, a density, a product temperature or a pressure outside its
   * range (never the height); look up VCF, SCF, reference volume and PCF, in
   * that order, aborting on the first failure; then
   * correctedVolume = referenceVolume × VCF × SCF × PCF and
   * mass = correctedVolume × density.
   */
  method Calculate(inputs: CalcInputs, dataset: Dataset,
                   bilinearInterpolateVCF: VcfInterpolator, linearInterpolate: LinearInterpolator)
    returns (r: Result<CalcResult, CalcError>)
    // validation order: the density error wins over every other
    ensures !RANGES.density.Contains(inputs.density) ==> r == Err(DensityOutOfRange)
    ensures RANGES.density.Contains(inputs.density)
            && !RANGES.productTemperature.Contains(inputs.productTemperature)
            ==> r == Err(ProductTemperatureOutOfRange)
    ensures RANGES.density.Contains(inputs.density)
            && RANGES.productTemperature.Contains(inputs.productTemperature)
            && !RANGES.pressure.Contains(UsedPressure(inputs))
            ==> r == Err(PressureOutOfRange)
    // after validation, the lookups fail in call order
    ensures InputsInRange(inputs) && ScfValue(inputs.shellTemperature, dataset.scf).Err?
            ==> r == Err(ShellTemperatureNotFound)
    ensures InputsInRange(inputs) && ScfValue(inputs.shellTemperature, dataset.scf).Ok? && dataset.heightCapacity == []
            ==> r == Err(HeightTableEmpty)
    ensures InputsInRange(inputs) && ScfValue(inputs.shellTemperature, dataset.scf).Ok?
            && dataset.heightCapacity != [] && dataset.pcf == []
            ==> r == Err(PressureTableEmpty)
    // success exactly when nothing above applies: the height is never rejected
    ensures r.Ok? <==> InputsInRange(inputs) && ScfValue(inputs.shellTemperature, dataset.scf).Ok?
                       && dataset.heightCapacity != [] && dataset.pcf != []
    ensures r.Ok? ==>
              var res := r.value;
              && res.usedDensity == inputs.density
              && res.usedProductTemperature == inputs.productTemperature
              && res.usedShellTemperature == inputs.shellTemperature
              && res.vcf == bilinearInterpolateVCF(inputs.productTemperature, inputs.density, dataset.vcf)
              && res.scf == ScfValue(inputs.shellTemperature, dataset.scf).value
              && res.referenceVolume == ReferenceVolume(inputs.heightMm, dataset.heightCapacity, linearInterpolate).value
              && res.pcf == PcfValue(UsedPressure(inputs), dataset.pcf, linearInterpolate).value
              && res.correctedVolume == res.referenceVolume * res.vcf * res.scf * res.pcf
              && res.correctedVolumeWithPressure == res.correctedVolume
              && res.mass == res.correctedVolume * res.usedDensity
              && res.clamped == ClampFlags(false, false, false, false)
  {
    var usedDensity := inputs.density;
    var usedProductTemperature := inputs.productTemperature;
    var usedShellTemperature := inputs.shellTemperature;
    var usedPressure := UsedPressure(inputs);

    var clamped := ClampFlags(false, false, false, false);

    if usedDensity < RANGES.density.min || usedDensity > RANGES.density.max {
      return Err(DensityOutOfRange);
    }
    if usedProductTemperature < RANGES.productTemperature.min || usedProductTemperature > RANGES.productTemperature.max {
      return Err(ProductTemperatureOutOfRange);
    }
    // a height outside RANGES.heightMm is accepted: the height lookup clamps it
    if usedPressure < RANGES.pressure.min || usedPressure > RANGES.pressure.max {
      return Err(PressureOutOfRange);
    }

    var vcf := LookupVCF(usedProductTemperature, usedDensity, dataset, bilinearInterpolateVCF);
    var scf :- LookupSCF(usedShellTemperature, dataset);
    var referenceVolume :- LookupReferenceVolumeFromHeight(inputs.heightMm, dataset, linearInterpolate);
    var pcf :- LookupPCF(usedPressure, dataset, linearInterpolate);

    var correctedVolume := referenceVolume * vcf * scf * pcf;
    var correctedVolumeWithPressure := correctedVolume;
    var mass := correctedVolume * usedDensity;

    return Ok(CalcResult(
      usedDensity, usedProductTemperature, usedShellTemperature,
      vcf, scf, referenceVolume, correctedVolume, pcf,
      correctedVolumeWithPressure, mass, clamped));
  }
}
