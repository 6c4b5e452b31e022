/**
 * The Table 7 converter: turning one row of the BR18 Table 7 spreadsheet
 * (column name to cell text) into an EPDx declaration.
 *
 * A Python exception is a `Failure` carrying its kind; a value Python reads
 * with `row.get(column)` is `Some(text)` or `None` when the column is absent.
 */
module Table7 {
  import opened Wrappers
  import opened PyFloat
  import opened Epdx

  type Row = map<string, string>

  /** The exceptions the converter can raise. */
  datatype PyError =
    | TypeError                // float(None): a numeric column is absent
    | ValueError(text: string) // float(text) of a text that is not a number
    | ZeroDivisionError        // a GWP value divided by a zero declared factor
    | AttributeError           // None.startswith: the row has no "Sorterings ID"

  const SortingId := "Sorterings ID"
  const NameDk := "Navn DK"
  const DeclaredFactor := "Deklareret faktor (FU)"
  const DeclaredUnit := "Deklareret enhed (FU)"
  const MassFactor := "Masse faktor"
  const DataType := "Data type"
  const Link := "Url (link)"
  const GwpA1A3 := "Global Opvarmning, modul A1-A3"
  const GwpC3 := "Global Opvarmning, modul C3"
  const GwpC4 := "Global Opvarmning, modul C4"
  const GwpD := "Global Opvarmning, modul D"

  /** Rows whose identifier starts with this are section headers. */
  const SkipPrefix := "#S"
  /** The GWP text that stands for "no value". */
  const NoValue := "-"

  const FormatVersion := "0.2.8"
  const DatasetVersion := "version 2 - 201222"
  const SourceName := "BR18 - Tabel 7"
  const Location := "DK"
  const ValidUntil := Date(2025, 12, 22)
  const PublishedDate := Date(2020, 12, 22)

  /** The unit codes of the "Deklareret enhed (FU)" column. */
  const UnitCodes: set<string> := {"STK", "M", "M2", "M3", "KG", "L"}

  /** `dict.get(column)`: the cell, or None when the column is absent. */
  function Get(row: Row, column: string): (cell: Option<string>)
    ensures cell.Some? <==> column in row
    ensures cell.Some? ==> cell.value == row[column]
  {
    if column in row then Some(row[column]) else None
  }

  /** `str.startswith`. */
  predicate StartsWith(s: string, prefix: string)
    ensures StartsWith(s, prefix) <==> |prefix| <= |s| && forall i :: 0 <= i < |prefix| ==> s[i] == prefix[i]
  {
    |prefix| <= |s| && s[..|prefix|] == prefix
  }

  /** Python's `float(v)` for a `str` or `None`. */
  function Float(v: Option<string>): (r: Result<real, PyError>)
    ensures v.None? ==> r == Failure(TypeError)
    ensures v.Some? && ParseFloat(v.value).None? ==> r == Failure(ValueError(v.value))
    ensures v.Some? && ParseFloat(v.value).Some? ==> r == Success(ParseFloat(v.value).value)
    ensures r.Success? ==> HasDigit(v.value)
  {
    match v
    case None => Failure(TypeError)
    case Some(text) =>
      match ParseFloat(text)
      case None => Failure(ValueError(text))
      case Some(x) => Success(x)
  }

  /** The unit code that stands for a known unit: the inverse of ConvertUnit. */
  function UnitCode(u: Unit): (code: string)
    requires u != UNKNOWN
    ensures code in UnitCodes
  {
    match u
    case PCS => "STK"
    case M => "M"
    case M2 => "M2"
    case M3 => "M3"
    case KG => "KG"
    case L => "L"
  }

  /** `convert_unit`: total, unknown codes and a missing cell give UNKNOWN. */
  function ConvertUnit(unit: Option<string>): (r: Unit)
    ensures r != UNKNOWN <==> unit.Some? && unit.value in UnitCodes
    ensures r != UNKNOWN ==> unit == Some(UnitCode(r))
  {
    match unit
    case Some("STK") => PCS
    case Some("M") => M
    case Some("M2") => M2
    case Some("M3") => M3
    case Some("KG") => KG
    case Some("L") => L
    case _ => UNKNOWN
  }

  /** Every known unit is read back from its code. */
  lemma UnitCodeRoundTrip(u: Unit)
    requires u != UNKNOWN
    ensures ConvertUnit(Some(UnitCode(u))) == u
  {
  }

  /** Distinct recognised codes give distinct units. */
  lemma ConvertUnitInjective(a: string, b: string)
    requires a in UnitCodes && b in UnitCodes && a != b
    ensures ConvertUnit(Some(a)) != ConvertUnit(Some(b))
  {
  }

  /** The phrase of the "Data type" column that stands for a subtype. */
  function SubtypePhrase(t: SubType): (phrase: string)
    ensures phrase != NoValue
  {
    match t
    case Generic => "Generisk data"
    case Industry => "Branche data"
  }

  /** `convert_subtype`: the two Danish phrases, anything else (or nothing) is None. */
  function ConvertSubtype(subtype: Option<string>): (r: Option<SubType>)
    ensures r == Some(Generic) <==> subtype == Some("Generisk data")
    ensures r == Some(Industry) <==> subtype == Some("Branche data")
    ensures r.Some? ==> subtype == Some(SubtypePhrase(r.value))
  {
    var phrases := map["Generisk data" := Generic, "Branche data" := Industry];
    if subtype.Some? && subtype.value in phrases then Some(phrases[subtype.value]) else None
  }

  /** Real division, `g / f`, characterised by multiplying back. */
  function Divide(g: real, f: real): (q: real)
    requires f != 0.0
    ensures q * f == g
  {
    g / f
  }

  /** `convert_gwp`: "-" is null; otherwise the value per declared unit. */
  function ConvertGwp(gwp: Option<string>, declaredFactor: real): (r: Result<Option<real>, PyError>)
    ensures r == Success(None) <==> gwp == Some(NoValue)
    ensures gwp != Some(NoValue) ==> (r.Success? <==> Float(gwp).Success? && declaredFactor != 0.0)
    ensures gwp != Some(NoValue) && Float(gwp).Failure? ==> r == Failure(Float(gwp).error)
    ensures gwp != Some(NoValue) && Float(gwp).Success? && declaredFactor == 0.0 ==> r == Failure(ZeroDivisionError)
    ensures r.Success? && r.value.Some? ==> r.value.value * declaredFactor == Float(gwp).value
    ensures r.Success? <==> GwpAccepted(gwp, declaredFactor)
  {
    if gwp == Some(NoValue) then
      Success(None)
    else
      match Float(gwp)
      case Failure(e) => Failure(e)
      case Success(g) =>
        if declaredFactor == 0.0 then Failure(ZeroDivisionError) else Success(Some(Divide(g, declaredFactor)))
  }

  /** `convert_lcabyg_id`: the mapped identifier, else the freshly generated one. */
  function ResolveId(lookup: map<string, string>, sortingId: Option<string>, freshId: string): (id: string)
    ensures sortingId.Some? && sortingId.value in lookup ==> id == lookup[sortingId.value]
    ensures (sortingId.None? || sortingId.value !in lookup) ==> id == freshId
  {
    match sortingId
    case Some(key) => if key in lookup then lookup[key] else freshId
    case None => freshId
  }

  /** A GWP cell that `convert_gwp` accepts under a given declared factor. */
  predicate GwpAccepted(gwp: Option<string>, declaredFactor: real) {
    gwp == Some(NoValue) || (Float(gwp).Success? && declaredFactor != 0.0)
  }

  /** A GWP slot holds null exactly for "-", and otherwise the cell's value per declared unit. */
  predicate GwpSlot(slot: Option<real>, gwp: Option<string>, declaredFactor: real) {
    && (slot.None? <==> gwp == Some(NoValue))
    && (slot.Some? ==> Float(gwp).Success? && slot.value * declaredFactor == Float(gwp).value)
  }

  /** The `gwp` argument of `from_dict`: four modules read from the row, eleven
      null; a failing cell raises, and the first of A1-A3, C3, C4, D to fail
      decides the exception. */
  function Gwp(row: Row, a1a3Factor: real, declaredFactor: real): (r: Result<ImpactCategory, PyError>)
    ensures r.Success? <==>
      && GwpAccepted(Get(row, GwpA1A3), a1a3Factor)
      && GwpAccepted(Get(row, GwpC3), declaredFactor)
      && GwpAccepted(Get(row, GwpC4), declaredFactor)
      && GwpAccepted(Get(row, GwpD), declaredFactor)
    ensures r.Success? ==>
      && GwpSlot(r.value.a1a3, Get(row, GwpA1A3), a1a3Factor)
      && GwpSlot(r.value.c3, Get(row, GwpC3), declaredFactor)
      && GwpSlot(r.value.c4, Get(row, GwpC4), declaredFactor)
      && GwpSlot(r.value.d, Get(row, GwpD), declaredFactor)
    ensures r.Success? ==>
      && r.value.a4.None? && r.value.a5.None?
      && r.value.b1.None? && r.value.b2.None? && r.value.b3.None? && r.value.b4.None?
      && r.value.b5.None? && r.value.b6.None? && r.value.b7.None?
      && r.value.c1.None? && r.value.c2.None?
    ensures !GwpAccepted(Get(row, GwpA1A3), a1a3Factor) ==>
      r == Failure(ConvertGwp(Get(row, GwpA1A3), a1a3Factor).error)
    ensures GwpAccepted(Get(row, GwpA1A3), a1a3Factor) && !GwpAccepted(Get(row, GwpC3), declaredFactor) ==>
      r == Failure(ConvertGwp(Get(row, GwpC3), declaredFactor).error)
    ensures (GwpAccepted(Get(row, GwpA1A3), a1a3Factor) && GwpAccepted(Get(row, GwpC3), declaredFactor)
             && !GwpAccepted(Get(row, GwpC4), declaredFactor)) ==>
      r == Failure(ConvertGwp(Get(row, GwpC4), declaredFactor).error)
    ensures (GwpAccepted(Get(row, GwpA1A3), a1a3Factor) && GwpAccepted(Get(row, GwpC3), declaredFactor)
             && GwpAccepted(Get(row, GwpC4), declaredFactor) && !GwpAccepted(Get(row, GwpD), declaredFactor)) ==>
      r == Failure(ConvertGwp(Get(row, GwpD), declaredFactor).error)
  {
    var a1a3 :- ConvertGwp(Get(row, GwpA1A3), a1a3Factor);
    var c3 :- ConvertGwp(Get(row, GwpC3), declaredFactor);
    var c4 :- ConvertGwp(Get(row, GwpC4), declaredFactor);
    var d :- ConvertGwp(Get(row, GwpD), declaredFactor);
    Success(ImpactCategory(a1a3, None, None, None, None, None, None, None, None, None, None, None, c3, c4, d))
  }

  /** `EPDx.from_dict`: one declaration from one row, or the first exception.
      A row is converted exactly when both factors are numbers and every GWP
      cell is accepted.  The exception raised is that of the first failing
      step, in source order: the declared factor, the mass factor, then the
      GWP cells as `Gwp` orders them. */
  function FromDict(row: Row, lookup: map<string, string>, freshId: string): (r: Result<Epd, PyError>)
    ensures r.Success? <==>
      && Float(Get(row, DeclaredFactor)).Success?
      && Float(Get(row, MassFactor)).Success?
      && GwpAccepted(Get(row, GwpA1A3), Float(Get(row, DeclaredFactor)).value)
      && GwpAccepted(Get(row, GwpC3), Float(Get(row, DeclaredFactor)).value)
      && GwpAccepted(Get(row, GwpC4), Float(Get(row, DeclaredFactor)).value)
      && GwpAccepted(Get(row, GwpD), Float(Get(row, DeclaredFactor)).value)
    ensures Float(Get(row, DeclaredFactor)).Failure? ==> r == Failure(Float(Get(row, DeclaredFactor)).error)
    ensures Float(Get(row, DeclaredFactor)).Success? && Float(Get(row, MassFactor)).Failure? ==>
      r == Failure(Float(Get(row, MassFactor)).error)
    ensures Float(Get(row, DeclaredFactor)).Success? && Float(Get(row, MassFactor)).Success? ==>
      var f := Float(Get(row, DeclaredFactor)).value;
      r.Failure? ==> r == Failure(Gwp(row, f, f).error)
  {
    var declaredFactor :- Float(Get(row, DeclaredFactor));
    var massFactor :- Float(Get(row, MassFactor));
    // the A1-A3 slot parses the declared factor cell a second time; having
    // been read once already, it reads the same again
    var a1a3Factor := Float(Get(row, DeclaredFactor)).value;
    var gwp :- Gwp(row, a1a3Factor, declaredFactor);
    Success(Epd(
      id := ResolveId(lookup, Get(row, SortingId), freshId),
      formatVersion := FormatVersion,
      name := Get(row, NameDk),
      version := DatasetVersion,
      declaredUnit := ConvertUnit(Get(row, DeclaredUnit)),
      validUntil := ValidUntil,
      publishedDate := PublishedDate,
      source := SourceName,
      standard := EN15804A1,
      subtype := ConvertSubtype(Get(row, DataType)),
      comment := Get(row, SortingId),
      referenceServiceLife := None,
      location := Location,
      conversions := [Conversion(KG, massFactor * declaredFactor)],
      gwp := gwp,
      metaFields := map["data_source" := Get(row, Link)]))
  }

  /** The fields copied or derived from the row. */
  lemma FromDictFields(row: Row, lookup: map<string, string>, freshId: string)
    requires FromDict(row, lookup, freshId).Success?
    ensures var epd := FromDict(row, lookup, freshId).value;
      && epd.id == ResolveId(lookup, Get(row, SortingId), freshId)
      && epd.name == Get(row, NameDk)
      && epd.comment == Get(row, SortingId)
      && epd.declaredUnit == ConvertUnit(Get(row, DeclaredUnit))
      && epd.subtype == ConvertSubtype(Get(row, DataType))
      && epd.metaFields == map["data_source" := Get(row, Link)]
  {
  }

  /** The fields that are the same for every row. */
  lemma FromDictConstants(row: Row, lookup: map<string, string>, freshId: string)
    requires FromDict(row, lookup, freshId).Success?
    ensures var epd := FromDict(row, lookup, freshId).value;
      && epd.formatVersion == "0.2.8"
      && epd.version == "version 2 - 201222"
      && epd.validUntil == Date(2025, 12, 22)
      && epd.publishedDate == Date(2020, 12, 22)
      && epd.source == "BR18 - Tabel 7"
      && epd.standard == EN15804A1
      && epd.referenceServiceLife.None?
      && epd.location == "DK"
  {
  }

  /** Exactly one conversion: to kilograms, mass factor times declared factor. */
  lemma FromDictConversions(row: Row, lookup: map<string, string>, freshId: string)
    requires FromDict(row, lookup, freshId).Success?
    ensures Float(Get(row, DeclaredFactor)).Success? && Float(Get(row, MassFactor)).Success?
    ensures var conversions := FromDict(row, lookup, freshId).value.conversions;
      && |conversions| == 1
      && conversions[0].to == KG
      && conversions[0].value == Float(Get(row, MassFactor)).value * Float(Get(row, DeclaredFactor)).value
  {
  }

  /** Four GWP slots come from the row, with the one declared factor; the other eleven are null. */
  lemma FromDictGwp(row: Row, lookup: map<string, string>, freshId: string)
    requires FromDict(row, lookup, freshId).Success?
    ensures Float(Get(row, DeclaredFactor)).Success?
    ensures var g := FromDict(row, lookup, freshId).value.gwp;
      var f := Float(Get(row, DeclaredFactor)).value;
      && GwpSlot(g.a1a3, Get(row, GwpA1A3), f)
      && GwpSlot(g.c3, Get(row, GwpC3), f)
      && GwpSlot(g.c4, Get(row, GwpC4), f)
      && GwpSlot(g.d, Get(row, GwpD), f)
      && g.a4.None? && g.a5.None?
      && g.b1.None? && g.b2.None? && g.b3.None? && g.b4.None? && g.b5.None? && g.b6.None? && g.b7.None?
      && g.c1.None? && g.c2.None?
  {
  }

  /** `parse_row` without the file write: skip "#S" rows, otherwise build the declaration. */
  function ParseRow(row: Row, lookup: map<string, string>, freshId: string): (r: Result<Option<Epd>, PyError>)
    ensures Get(row, SortingId).None? ==> r == Failure(AttributeError)
    ensures Get(row, SortingId).Some? && StartsWith(Get(row, SortingId).value, SkipPrefix) ==> r == Success(None)
    ensures Get(row, SortingId).Some? && !StartsWith(Get(row, SortingId).value, SkipPrefix) ==>
      (r.Success? <==> FromDict(row, lookup, freshId).Success?) && (r.Success? ==> r.value.Some?)
    ensures Get(row, SortingId).Some? && !StartsWith(Get(row, SortingId).value, SkipPrefix) ==>
      && (r.Success? ==> r.value == Some(FromDict(row, lookup, freshId).value))
      && (r.Failure? ==> r.error == FromDict(row, lookup, freshId).error)
    ensures r.Success? && r.value.Some? ==>
      r.value.value.comment == Get(row, SortingId) && !StartsWith(r.value.value.comment.value, SkipPrefix)
  {
    match Get(row, SortingId)
    case None => Failure(AttributeError)
    case Some(sortingId) =>
      if StartsWith(sortingId, SkipPrefix) then
        Success(None)
      else
        var epd :- FromDict(row, lookup, freshId);
        Success(Some(epd))
  }

  /** "100" over a declared factor of 2 is 50 per declared unit; text that is not a number raises. */
  lemma ConvertGwpExamples()
    ensures ConvertGwp(Some("100"), 2.0) == Success(Some(50.0))
    ensures ConvertGwp(Some("abc"), 2.0) == Failure(ValueError("abc"))
    ensures ConvertGwp(Some("-"), 2.0) == Success(None)
  {
    ParseHundred();
    ParseRefusals();
  }

  /** A product row whose identifier "123" is looked up as "abc-001": one
      kilogram per declared kilogram, 10 kg CO2-eq for A1-A3 and nothing for
      C3, C4 and D. */
  lemma ConcreteRow(row: Row)
    requires Get(row, SortingId) == Some("123")
    requires Get(row, DeclaredFactor) == Some("1") && Get(row, MassFactor) == Some("1")
    requires Get(row, DeclaredUnit) == Some("KG") && Get(row, DataType) == Some("Generisk data")
    requires Get(row, GwpA1A3) == Some("10")
    requires Get(row, GwpC3) == Some("-") && Get(row, GwpC4) == Some("-") && Get(row, GwpD) == Some("-")
    ensures var r := ParseRow(row, map["123" := "abc-001"], "unused");
      && r.Success? && r.value.Some?
      && r.value.value.id == "abc-001"
      && r.value.value.declaredUnit == KG
      && r.value.value.subtype == Some(Generic)
      && r.value.value.gwp.a1a3 == Some(10.0)
      && r.value.value.gwp.c3.None?
      && r.value.value.conversions == [Conversion(KG, 1.0)]
  {
    var lookup := map["123" := "abc-001"];
    assert ParseFloat("1") == Some(1.0) && ParseFloat("10") == Some(10.0);
    assert "123"[..2] != SkipPrefix by { assert "123"[0] != SkipPrefix[0]; }
    assert FromDict(row, lookup, "unused").Success?;
    FromDictFields(row, lookup, "unused");
    FromDictConversions(row, lookup, "unused");
    FromDictGwp(row, lookup, "unused");
  }
}
