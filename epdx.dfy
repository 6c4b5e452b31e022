/**
 * The parts of the EPDx record format that the Table 7 converter fills in:
 * the enumerations it names and the shape of one declaration.  Only the
 * enumeration members the converter uses are listed.
 */
module Epdx {
  import opened Wrappers

  datatype Unit = PCS | M | M2 | M3 | KG | L | UNKNOWN

  datatype SubType = Generic | Industry

  datatype Standard = EN15804A1

  /** A calendar date; the converter only ever builds midnight timestamps. */
  datatype Date = Date(year: int, month: int, day: int)

  /** One unit conversion: the declared unit corresponds to `value` of `to`. */
  datatype Conversion = Conversion(to: Unit, value: real)

  /** Global warming potential per life-cycle module, each value or null. */
  datatype ImpactCategory = ImpactCategory(
    a1a3: Option<real>,
    a4: Option<real>,
    a5: Option<real>,
    b1: Option<real>,
    b2: Option<real>,
    b3: Option<real>,
    b4: Option<real>,
    b5: Option<real>,
    b6: Option<real>,
    b7: Option<real>,
    c1: Option<real>,
    c2: Option<real>,
    c3: Option<real>,
    c4: Option<real>,
    d: Option<real>)

  /** One Environmental Product Declaration as the converter builds it. */
  datatype Epd = Epd(
    id: string,
    formatVersion: string,
    name: Option<string>,
    version: string,
    declaredUnit: Unit,
    validUntil: Date,
    publishedDate: Date,
    source: string,
    standard: Standard,
    subtype: Option<SubType>,
    comment: Option<string>,
    referenceServiceLife: Option<int>,
    location: string,
    conversions: seq<Conversion>,
    gwp: ImpactCategory,
    metaFields: map<string, Option<string>>)
}
