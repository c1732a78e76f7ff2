/** The Auto MPG rows and the derivation `load_data` performs on each of them. */
module Rows {
  import opened Wrappers
  import opened Text
  import opened Seqs

  /** One parsed line of the data file: the nine positional columns. Floating-point
      columns are carried as reals; nothing in the model computes with them. */
  datatype RawRow = RawRow(
    mpg: real,
    cylinders: int,
    displacement: real,
    horsepower: real,
    weight: real,
    acceleration: real,
    modelYear: int,
    origin: int,
    carName: string)

  /** A row of the base table after loading: `origin` holds the region label (None where
      pandas leaves NaN) and `manufacturer` is derived from `carName`. */
  datatype Record = Record(
    mpg: real,
    cylinders: int,
    displacement: real,
    horsepower: real,
    weight: real,
    acceleration: real,
    modelYear: int,
    origin: Option<string>,
    carName: string,
    manufacturer: string)

  /** The fixed table `{1: 'USA', 2: 'Europe', 3: 'Japan'}` used by `Series.map`; a code
      outside it becomes NaN, modelled as None. */
  function OriginLabel(code: int): (region: Option<string>)
    ensures region == Some("USA") <==> code == 1
    ensures region == Some("Europe") <==> code == 2
    ensures region == Some("Japan") <==> code == 3
    ensures region.None? <==> code != 1 && code != 2 && code != 3
  {
    match code
    case 1 => Some("USA")
    case 2 => Some("Europe")
    case 3 => Some("Japan")
    case _ => None
  }

  /** The inverse reading of the table: which raw code a region label stands for. */
  function OriginCode(region: string): (code: Option<int>)
    ensures code.Some? <==> region in {"USA", "Europe", "Japan"}
  {
    if region == "USA" then Some(1)
    else if region == "Europe" then Some(2)
    else if region == "Japan" then Some(3)
    else None
  }

  /** The origin table is a bijection between the codes 1, 2, 3 and the three labels. */
  lemma OriginRoundTrip(code: int, region: string)
    ensures OriginLabel(code) == Some(region) <==> OriginCode(region) == Some(code)
  {
  }

  /** Distinct codes never share a label. */
  lemma OriginLabelInjective(a: int, b: int)
    requires OriginLabel(a).Some? && OriginLabel(a) == OriginLabel(b)
    ensures a == b
  {
  }

  /** `name.split()[0]`; None stands for the IndexError raised on a name without a token. */
  function ManufacturerOf(carName: string): (m: Option<string>)
    ensures m == FirstToken(carName)
    ensures m.None? <==> AllSpace(carName)
    ensures m.Some? ==> m.value != [] && NoSpace(m.value) && m.value <= StripLeading(carName)
  {
    var parts := Split(carName);
    FirstTokenIsSplitHead(carName);
    if |parts| == 0 then None else Some(parts[0])
  }

  /** `rec` is what loading makes of `raw`: the numeric columns and the name unchanged,
      the origin code replaced by its label, and the manufacturer the name's first token. */
  predicate DerivedFrom(rec: Record, raw: RawRow)
  {
    && rec.mpg == raw.mpg
    && rec.cylinders == raw.cylinders
    && rec.displacement == raw.displacement
    && rec.horsepower == raw.horsepower
    && rec.weight == raw.weight
    && rec.acceleration == raw.acceleration
    && rec.modelYear == raw.modelYear
    && rec.origin == OriginLabel(raw.origin)
    && rec.carName == raw.carName
    && FirstToken(raw.carName) == Some(rec.manufacturer)
  }

  /** One row through both derivation steps; None where `split()[0]` raises. */
  function DeriveRow(raw: RawRow): (rec: Option<Record>)
    ensures rec.None? <==> AllSpace(raw.carName)
  {
    match ManufacturerOf(raw.carName)
    case None => None
    case Some(m) =>
      Some(Record(raw.mpg, raw.cylinders, raw.displacement, raw.horsepower,
                  raw.weight, raw.acceleration, raw.modelYear,
                  OriginLabel(raw.origin), raw.carName, m))
  }

  /** A row that derives keeps its measurements and name, gets its origin label, and gets
      the name's first token as manufacturer. */
  lemma DeriveRowIsDerivation(raw: RawRow)
    ensures DeriveRow(raw).Some? ==> DerivedFrom(DeriveRow(raw).value, raw)
  {
  }

  /** Why loading stopped: the car name of row `row` has no token, so `split()[0]`
      raised IndexError. */
  datatype LoadError = NoManufacturer(row: nat)

  /** `i` is the first row whose car name has no token. */
  predicate FirstNameless(raws: seq<RawRow>, i: nat)
  {
    && i < |raws|
    && AllSpace(raws[i].carName)
    && forall j :: 0 <= j < i ==> !AllSpace(raws[j].carName)
  }

  /** The derivation part of `load_data`: label every origin, then derive every
      manufacturer in row order, stopping at the first row whose name has no token. */
  method Load(raws: seq<RawRow>) returns (r: Result<seq<Record>, LoadError>)
    ensures r.Success? <==> forall i :: 0 <= i < |raws| ==> !AllSpace(raws[i].carName)
    ensures r.Failure? ==> FirstNameless(raws, r.error.row)
    ensures r.Success? ==> |r.value| == |raws|
    ensures r.Success? ==> forall i :: 0 <= i < |raws| ==> DerivedFrom(r.value[i], raws[i])
  {
    var mapped := TryMap(raws, DeriveRow);
    match mapped
    case Success(rows) =>
      forall i | 0 <= i < |raws|
        ensures DerivedFrom(rows[i], raws[i])
      {
        DeriveRowIsDerivation(raws[i]);
      }
      return Success(rows);
    case Failure(i) =>
      return Failure(NoManufacturer(i));
  }
}
