/**
 * The calculation service: two fixed lookup tables, the request validator of
 * the `/calculate` route, the volume and mass model, and the Tsiolkovsky
 * rocket equation delta-v = v_e * ln(m0 / mf).
 *
 * Quantities are exact reals. `math.log` is a parameter `ln` of the operations
 * that need it; the mass ratio m0 / mf, which is what the logarithm is applied
 * to, is modelled and reasoned about directly.
 */
module Backend {
  import opened Wrappers

  // ---------------------------------------------------------------------------
  // Tables
  // ---------------------------------------------------------------------------

  /** A dictionary literal with string keys: its entries in insertion order. */
  type Table<V> = seq<(string, V)>

  /** Density (kg/m^3) and exhaust velocity (m/s) of a fuel. */
  datatype Fuel = Fuel(density: real, exhaustVelocity: real)

  /** Shell material -> density in kg/m^3. */
  const RocketMaterials: Table<real> := [
    ("Aluminum-Lithium Alloy", 2550.0),
    ("Carbon Fiber", 1800.0),
    ("Glass", 2500.0),
    ("Gold", 19320.0),
    ("Ice", 917.0),
    ("Inconel", 8497.0),
    ("Peanutbutter", 1091.0),
    ("Plastic", 1040.0),
    ("Porcelain Ceramic", 2400.0),
    ("Silver", 10490.0),
    ("Steel", 7850.0),
    ("Titanium", 4540.0),
    ("Wood", 440.0)
  ]

  /** Fuel -> (density, exhaust velocity). */
  const Fuels: Table<Fuel> := [
    ("Hydrazine", Fuel(1010.0, 3500.0)),
    ("Hydrogen Peroxide", Fuel(1450.0, 1800.0)),
    ("Liquid Hydrogen", Fuel(70.9, 6553.0)),
    ("Liquid Methane", Fuel(26429.0, 3450.0)),
    ("Liquid Oxygen", Fuel(1141.0, 3000.0)),
    ("Nitrous Oxide", Fuel(1220.0, 2300.0)),
    ("Refined Petroleum-1", Fuel(820.0, 2700.0))
  ]

  /** The value stored under `k`, if `k` is a key of `t` (`k in d`, then `d[k]`). */
  function Lookup<V>(t: Table<V>, k: string): (r: Option<V>)
    ensures r.Some? ==> exists i :: 0 <= i < |t| && t[i] == (k, r.value)
    ensures r.None? <==> forall i :: 0 <= i < |t| ==> t[i].0 != k
  {
    if |t| == 0 then None
    else if t[0].0 == k then Some(t[0].1)
    else
      assert forall i :: 0 <= i < |t| - 1 ==> t[1..][i] == t[i + 1];
      Lookup(t[1..], k)
  }

  /** The keys of `t`, in table order (`list(d.keys())`). */
  function Keys<V>(t: Table<V>): (r: seq<string>)
    ensures |r| == |t|
    ensures forall i :: 0 <= i < |t| ==> r[i] == t[i].0
  {
    if |t| == 0 then [] else [t[0].0] + Keys(t[1..])
  }

  /** No key occurs twice: true of every dictionary. */
  predicate DistinctKeys<V>(t: Table<V>)
  {
    forall i, j :: 0 <= i < j < |t| ==> t[i].0 != t[j].0
  }

  predicate Distinct(s: seq<string>)
  {
    forall i, j :: 0 <= i < j < |s| ==> s[i] != s[j]
  }

  /** A key is found exactly when it is one of the table's keys; this follows from the contracts of `Lookup` and `Keys`. */
  lemma LookupFindsKeys<V>(t: Table<V>, k: string)
    ensures Lookup(t, k).Some? <==> k in Keys(t)
  {
  }

  /**
   * Looking up the i-th key gives the i-th value when no earlier entry has
   * that key, as in every table with distinct keys.
   */
  lemma {:induction false} LookupAt<V>(t: Table<V>, i: nat)
    requires i < |t|
    requires forall j :: 0 <= j < i ==> t[j].0 != t[i].0
    ensures Lookup(t, t[i].0) == Some(t[i].1)
  {
    if i > 0 {
      assert t[1..][i - 1] == t[i];
      assert t[0].0 != t[i].0;
      forall j | 0 <= j < i - 1
        ensures t[1..][j].0 != t[1..][i - 1].0
      {
        assert t[1..][j] == t[j + 1];
      }
      LookupAt(t[1..], i - 1);
    }
  }

  predicate PositiveDensities(t: Table<real>)
  {
    forall i :: 0 <= i < |t| ==> t[i].1 > 0.0
  }

  predicate PositiveFuels(t: Table<Fuel>)
  {
    forall i :: 0 <= i < |t| ==> t[i].1.density > 0.0 && t[i].1.exhaustVelocity > 0.0
  }

  /** A lookup in a table of positive densities finds a positive density; this follows from the contract of `Lookup`. */
  lemma LookupPositive(t: Table<real>, k: string)
    requires PositiveDensities(t)
    ensures Lookup(t, k).Some? ==> Lookup(t, k).value > 0.0
  {
  }

  /** The same for the fuel table's two numbers. */
  lemma LookupFuelPositive(t: Table<Fuel>, k: string)
    requires PositiveFuels(t)
    ensures Lookup(t, k).Some? ==> Lookup(t, k).value.density > 0.0 && Lookup(t, k).value.exhaustVelocity > 0.0
  {
  }

  /** A table in which `position` maps each key back to its own index has distinct keys. */
  lemma PositionsDistinct<V>(t: Table<V>, position: string -> int)
    requires forall i :: 0 <= i < |t| ==> position(t[i].0) == i
    ensures DistinctKeys(t)
  {
  }

  /**
   * The index of a material name in the material table, or -1. It lists the
   * names a second time and exists only for `MaterialKeysDistinct`; a change
   * to the table must be made here too, or `MaterialPositionAt` fails.
   */
  function MaterialPosition(name: string): int
  {
    if name == "Aluminum-Lithium Alloy" then 0
    else if name == "Carbon Fiber" then 1
    else if name == "Glass" then 2
    else if name == "Gold" then 3
    else if name == "Ice" then 4
    else if name == "Inconel" then 5
    else if name == "Peanutbutter" then 6
    else if name == "Plastic" then 7
    else if name == "Porcelain Ceramic" then 8
    else if name == "Silver" then 9
    else if name == "Steel" then 10
    else if name == "Titanium" then 11
    else if name == "Wood" then 12
    else -1
  }

  /**
   * The index of a fuel name in the fuel table, or -1. It lists the names a
   * second time and exists only for `FuelKeysDistinct`; a change to the table
   * must be made here too, or `FuelPositionAt` fails.
   */
  function FuelPosition(name: string): int
  {
    if name == "Hydrazine" then 0
    else if name == "Hydrogen Peroxide" then 1
    else if name == "Liquid Hydrogen" then 2
    else if name == "Liquid Methane" then 3
    else if name == "Liquid Oxygen" then 4
    else if name == "Nitrous Oxide" then 5
    else if name == "Refined Petroleum-1" then 6
    else -1
  }

  /** The k-th material name is at position k. */
  lemma MaterialPositionAt(k: nat)
    requires k < |RocketMaterials|
    ensures MaterialPosition(RocketMaterials[k].0) == k
  {
    if k == 0 { assert MaterialPosition(RocketMaterials[0].0) == 0; }
    else if k == 1 { assert MaterialPosition(RocketMaterials[1].0) == 1; }
    else if k == 2 { assert MaterialPosition(RocketMaterials[2].0) == 2; }
    else if k == 3 { assert MaterialPosition(RocketMaterials[3].0) == 3; }
    else if k == 4 { assert MaterialPosition(RocketMaterials[4].0) == 4; }
    else if k == 5 { assert MaterialPosition(RocketMaterials[5].0) == 5; }
    else if k == 6 { assert MaterialPosition(RocketMaterials[6].0) == 6; }
    else if k == 7 { assert MaterialPosition(RocketMaterials[7].0) == 7; }
    else if k == 8 { assert MaterialPosition(RocketMaterials[8].0) == 8; }
    else if k == 9 { assert MaterialPosition(RocketMaterials[9].0) == 9; }
    else if k == 10 { assert MaterialPosition(RocketMaterials[10].0) == 10; }
    else if k == 11 { assert MaterialPosition(RocketMaterials[11].0) == 11; }
    else if k == 12 { assert MaterialPosition(RocketMaterials[12].0) == 12; }
  }

  /** The k-th fuel name is at position k. */
  lemma FuelPositionAt(k: nat)
    requires k < |Fuels|
    ensures FuelPosition(Fuels[k].0) == k
  {
    if k == 0 { assert FuelPosition(Fuels[0].0) == 0; }
    else if k == 1 { assert FuelPosition(Fuels[1].0) == 1; }
    else if k == 2 { assert FuelPosition(Fuels[2].0) == 2; }
    else if k == 3 { assert FuelPosition(Fuels[3].0) == 3; }
    else if k == 4 { assert FuelPosition(Fuels[4].0) == 4; }
    else if k == 5 { assert FuelPosition(Fuels[5].0) == 5; }
    else if k == 6 { assert FuelPosition(Fuels[6].0) == 6; }
  }

  /** No material name occurs twice. */
  lemma MaterialKeysDistinct()
    ensures DistinctKeys(RocketMaterials)
  {
    forall k | 0 <= k < |RocketMaterials|
      ensures MaterialPosition(RocketMaterials[k].0) == k
    {
      MaterialPositionAt(k);
    }
    PositionsDistinct(RocketMaterials, MaterialPosition);
  }

  /** No fuel name occurs twice. */
  lemma FuelKeysDistinct()
    ensures DistinctKeys(Fuels)
  {
    forall k | 0 <= k < |Fuels|
      ensures FuelPosition(Fuels[k].0) == k
    {
      FuelPositionAt(k);
    }
    PositionsDistinct(Fuels, FuelPosition);
  }

  /** Every density in the material table is positive. */
  lemma MaterialDensitiesPositive(material: string)
    ensures Lookup(RocketMaterials, material).Some? ==> Lookup(RocketMaterials, material).value > 0.0
  {
    assert PositiveDensities(RocketMaterials);
    LookupPositive(RocketMaterials, material);
  }

  /** Every fuel density and exhaust velocity is positive. */
  lemma FuelValuesPositive(fuel: string)
    ensures Lookup(Fuels, fuel).Some? ==> Lookup(Fuels, fuel).value.density > 0.0
    ensures Lookup(Fuels, fuel).Some? ==> Lookup(Fuels, fuel).value.exhaustVelocity > 0.0
  {
    assert PositiveFuels(Fuels);
    LookupFuelPositive(Fuels, fuel);
  }

  // ---------------------------------------------------------------------------
  // The list routes
  // ---------------------------------------------------------------------------

  /** The key list of a dictionary: each key once, in table order, and nothing else. */
  function KeyList<V>(t: Table<V>): (r: seq<string>)
    requires DistinctKeys(t)
    ensures |r| == |t|
    ensures forall i :: 0 <= i < |r| ==> r[i] == t[i].0
    ensures Distinct(r)
    ensures forall k :: k in r <==> Lookup(t, k).Some?
  {
    assert forall k :: Lookup(t, k).Some? <==> k in Keys(t) by {
      forall k { LookupFindsKeys(t, k); }
    }
    Keys(t)
  }

  /** GET /materials: every material name once, in table order. */
  function GetMaterials(): (r: seq<string>)
    ensures |r| == |RocketMaterials|
    ensures forall i :: 0 <= i < |r| ==> r[i] == RocketMaterials[i].0
    ensures Distinct(r)
    ensures forall k :: k in r <==> Lookup(RocketMaterials, k).Some?
  {
    MaterialKeysDistinct();
    KeyList(RocketMaterials)
  }

  /** GET /fuels: every fuel name once, in table order. */
  function GetFuels(): (r: seq<string>)
    ensures |r| == |Fuels|
    ensures forall i :: 0 <= i < |r| ==> r[i] == Fuels[i].0
    ensures Distinct(r)
    ensures forall k :: k in r <==> Lookup(Fuels, k).Some?
  {
    FuelKeysDistinct();
    KeyList(Fuels)
  }

  // ---------------------------------------------------------------------------
  // Requests, responses and validation
  // ---------------------------------------------------------------------------

  /**
   * The JSON body of a POST /calculate, with the numeric fields already
   * converted to numbers. `None` is a key absent from the body.
   */
  datatype Request = Request(
    material: Option<string>,
    fuelType: Option<string>,
    height: Option<real>,
    diameter: Option<real>,
    fuelFillPercentage: Option<real>)

  datatype Body = ErrorBody(error: string) | DeltaVBody(deltaV: real)

  /** An HTTP status code and a JSON body. */
  datatype Response = Response(status: int, body: Body)

  const MaterialOrFuelError: string := "Invalid material or fuel type"
  const RangeError: string := "Invalid height, diameter, or fill percentage"
  const BadRequest: int := 400
  const Ok: int := 200

  /** The numbers the mass model works on, taken from a validated request. */
  datatype Params = Params(density: real, fuel: Fuel, height: real, diameter: real, fill: real)

  /** Absent numeric fields default to 0. */
  function Height(req: Request): real { req.height.GetOr(0.0) }
  function Diameter(req: Request): real { req.diameter.GetOr(0.0) }
  function Fill(req: Request): real { req.fuelFillPercentage.GetOr(0.0) }

  predicate KnownMaterial(req: Request)
  {
    req.material.Some? && Lookup(RocketMaterials, req.material.value).Some?
  }

  predicate KnownFuel(req: Request)
  {
    req.fuelType.Some? && Lookup(Fuels, req.fuelType.value).Some?
  }

  /** What the mass model needs of its inputs. */
  predicate ValidParams(p: Params)
  {
    && p.density > 0.0
    && p.fuel.density > 0.0
    && p.fuel.exhaustVelocity > 0.0
    && p.height > 0.0
    && p.diameter > 0.0
    && 0.0 <= p.fill <= 1.0
  }

  /**
   * The two checks of the route: names first, then ranges. An accepted request
   * carries the densities of its table entries and its (defaulted) numbers.
   */
  function Validate(req: Request): (r: Result<Params, string>)
    ensures r == Failure(MaterialOrFuelError) <==> !KnownMaterial(req) || !KnownFuel(req)
    ensures r == Failure(RangeError) <==>
      KnownMaterial(req) && KnownFuel(req) &&
      (Height(req) <= 0.0 || Diameter(req) <= 0.0 || Fill(req) < 0.0 || Fill(req) > 1.0)
    ensures r.Failure? ==> r.error == MaterialOrFuelError || r.error == RangeError
    ensures r.Success? ==>
      && ValidParams(r.value)
      && Some(r.value.density) == Lookup(RocketMaterials, req.material.value)
      && Some(r.value.fuel) == Lookup(Fuels, req.fuelType.value)
      && r.value.height == Height(req)
      && r.value.diameter == Diameter(req)
      && r.value.fill == Fill(req)
  {
    if !KnownMaterial(req) || !KnownFuel(req) then
      Failure(MaterialOrFuelError)
    else if Height(req) <= 0.0 || Diameter(req) <= 0.0 || !(0.0 <= Fill(req) <= 1.0) then
      Failure(RangeError)
    else
      var density := Lookup(RocketMaterials, req.material.value).value;
      var fuel := Lookup(Fuels, req.fuelType.value).value;
      MaterialDensitiesPositive(req.material.value);
      FuelValuesPositive(req.fuelType.value);
      Success(Params(density, fuel, Height(req), Diameter(req), Fill(req)))
  }

  // ---------------------------------------------------------------------------
  // Volumes and masses
  // ---------------------------------------------------------------------------

  /** Python's `math.pi`, as the exact decimal it prints as. */
  const Pi: real := 3.141592653589793

  /** The area of a circle of the given diameter: pi * (d/2)^2. */
  function CrossSection(diameter: real): real
  {
    Pi * ((diameter / 2.0) * (diameter / 2.0))
  }

  lemma CrossSectionPositive(diameter: real)
    ensures diameter > 0.0 ==> CrossSection(diameter) > 0.0
  {
    if diameter > 0.0 {
      var radius := diameter / 2.0;
      var half := Pi * radius;
      assert half > 0.0;
      assert CrossSection(diameter) == half * radius;
    }
  }

  /** The body as a cylinder; positive for a positive height and diameter. */
  function TotalVolume(height: real, diameter: real): (v: real)
    ensures height > 0.0 && diameter > 0.0 ==> v > 0.0
  {
    CrossSectionPositive(diameter);
    CrossSection(diameter) * height
  }

  /** The tank: a cylinder of the same height and 85 % of the diameter. */
  function TankVolume(height: real, diameter: real): (v: real)
    ensures v == 0.7225 * TotalVolume(height, diameter)
  {
    CrossSection(diameter * 0.85) * height
  }

  /** The shell: what is left of the body around the tank. */
  function ShellVolume(height: real, diameter: real): (v: real)
    ensures v == 0.2775 * TotalVolume(height, diameter)
    ensures height > 0.0 && diameter > 0.0 ==> v > 0.0
  {
    TotalVolume(height, diameter) - TankVolume(height, diameter)
  }

  /** `mf`: the empty rocket, the shell at the material's density. */
  function DryMass(p: Params): (m: real)
    ensures p.height > 0.0 && p.diameter > 0.0 && p.density > 0.0 ==> m > 0.0
  {
    ShellVolume(p.height, p.diameter) * p.density
  }

  /** The fuel in a full tank. */
  function FullFuelMass(p: Params): (m: real)
    ensures p.height > 0.0 && p.diameter > 0.0 && p.fuel.density > 0.0 ==> m > 0.0
  {
    TankVolume(p.height, p.diameter) * p.fuel.density
  }

  /** `m0`: the dry mass plus the tank filled to the fraction `fill`. */
  function LoadedMass(p: Params): (m: real)
    ensures ValidParams(p) ==> m >= DryMass(p)
    ensures ValidParams(p) ==> (m == DryMass(p) <==> p.fill == 0.0)
  {
    DryMass(p) + FullFuelMass(p) * p.fill
  }

  /** `m0 / mf`, the argument of the logarithm. */
  function MassRatio(p: Params): (r: real)
    requires ValidParams(p)
    ensures r >= 1.0
    ensures r == 1.0 <==> p.fill == 0.0
  {
    var mf := DryMass(p);
    var m0 := LoadedMass(p);
    assert m0 / mf >= 1.0 by { RatioAtLeastOne(m0, mf); }
    m0 / mf
  }

  lemma RatioAtLeastOne(m0: real, mf: real)
    requires mf > 0.0 && m0 >= mf
    ensures m0 / mf >= 1.0
    ensures m0 / mf == 1.0 <==> m0 == mf
  {
  }

  /** The Tsiolkovsky rocket equation, with the logarithm as a parameter. */
  function DeltaV(p: Params, ln: real -> real): (dv: real)
    requires ValidParams(p)
    ensures (forall x :: x >= 1.0 ==> ln(x) >= 0.0) ==> dv >= 0.0
  {
    p.fuel.exhaustVelocity * ln(MassRatio(p))
  }

  /** POST /calculate. */
  function CalculateDeltaV(req: Request, ln: real -> real): (r: Response)
    ensures r.status == BadRequest <==> r.body.ErrorBody?
    ensures r.status == Ok <==> r.body.DeltaVBody?
    ensures r.body == ErrorBody(MaterialOrFuelError) <==> !KnownMaterial(req) || !KnownFuel(req)
    ensures r.body == ErrorBody(RangeError) <==>
      KnownMaterial(req) && KnownFuel(req) &&
      (Height(req) <= 0.0 || Diameter(req) <= 0.0 || Fill(req) < 0.0 || Fill(req) > 1.0)
    ensures r.body.DeltaVBody? <==> Validate(req).Success?
    ensures r.body.DeltaVBody? ==> r.body.deltaV == DeltaV(Validate(req).value, ln)
  {
    match Validate(req)
    case Failure(e) => Response(BadRequest, ErrorBody(e))
    case Success(p) => Response(Ok, DeltaVBody(DeltaV(p, ln)))
  }

  // ---------------------------------------------------------------------------
  // Properties
  // ---------------------------------------------------------------------------

  /** A fill given as a percentage (anything above 1, such as 50) is refused. */
  lemma FillAboveOneRejected(req: Request, ln: real -> real)
    requires KnownMaterial(req) && KnownFuel(req)
    requires req.fuelFillPercentage.Some? && req.fuelFillPercentage.value > 1.0
    ensures CalculateDeltaV(req, ln) == Response(BadRequest, ErrorBody(RangeError))
  {
  }

  /** A missing height or diameter defaults to 0 and is always refused. */
  lemma MissingDimensionRejected(req: Request, ln: real -> real)
    requires req.height.None? || req.diameter.None?
    ensures CalculateDeltaV(req, ln).status == BadRequest
  {
  }

  /** A missing fill defaults to 0: a valid request gives a mass ratio of 1. */
  lemma MissingFillAccepted(req: Request)
    requires KnownMaterial(req) && KnownFuel(req)
    requires Height(req) > 0.0 && Diameter(req) > 0.0
    requires req.fuelFillPercentage.None?
    ensures Validate(req).Success?
    ensures MassRatio(Validate(req).value) == 1.0
  {
  }

  /** With an empty tank nothing is burned: delta-v is v_e * ln 1 = 0. */
  lemma ZeroFillZeroDeltaV(p: Params, ln: real -> real)
    requires ValidParams(p) && p.fill == 0.0
    requires ln(1.0) == 0.0
    ensures DeltaV(p, ln) == 0.0
  {
  }

  /** With everything else fixed, more fuel never lowers the mass ratio. */
  lemma RatioMonotoneInFill(p: Params, fill: real)
    requires ValidParams(p) && p.fill <= fill <= 1.0
    ensures MassRatio(p) <= MassRatio(p.(fill := fill))
  {
    var q := p.(fill := fill);
    var mf, fuel := DryMass(p), FullFuelMass(p);
    assert DryMass(q) == mf && FullFuelMass(q) == fuel;
    MultiplyMonotone(fuel, p.fill, fill);
    assert LoadedMass(p) <= LoadedMass(q);
    DivideMonotone(LoadedMass(p), LoadedMass(q), mf);
  }

  lemma MultiplyMonotone(c: real, a: real, b: real)
    requires c > 0.0 && a <= b
    ensures c * a <= c * b
  {
  }

  lemma DivideMonotone(a: real, b: real, c: real)
    requires a <= b && c > 0.0
    ensures a / c <= b / c
  {
  }

  /** So is delta-v, for any logarithm that is monotone on [1, oo). */
  lemma DeltaVMonotoneInFill(p: Params, fill: real, ln: real -> real)
    requires ValidParams(p) && p.fill <= fill <= 1.0
    requires forall x, y :: 1.0 <= x <= y ==> ln(x) <= ln(y)
    ensures DeltaV(p, ln) <= DeltaV(p.(fill := fill), ln)
  {
    RatioMonotoneInFill(p, fill);
  }
}
