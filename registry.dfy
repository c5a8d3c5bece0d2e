/**
  The static ontology registry: namespaces, the class and property skeleton,
  the date-format table and the per-source mappings.  Everything here is an
  immutable constant; the lemmas at the end state the facts about it that the
  transform stage relies on.
*/
module Registry {
  import opened PyStr
  import opened Rdf

  // ---------------------------------------------------------------------------
  // Namespaces

  const PropNs := "http://example.org/property#"
  const LocNs := "http://example.org/location#"
  const TimeNs := "http://example.org/time#"
  const EconNs := "http://example.org/economic#"
  const HouseNs := "http://example.org/housing#"

  const Namespaces: map<string, string> :=
    map["prop" := PropNs, "loc" := LocNs, "time" := TimeNs, "econ" := EconNs, "house" := HouseNs]

  // ---------------------------------------------------------------------------
  // Skeleton declarations

  datatype ClassDecl = ClassDecl(name: string, uri: string)
  datatype SubclassDecl = SubclassDecl(name: string, uri: string, parent: string)
  datatype ObjectPropertyDecl = ObjectPropertyDecl(name: string, uri: string, domain: string, range: string)
  datatype DataPropertyDecl = DataPropertyDecl(name: string, uri: string)

  const Classes: seq<ClassDecl> := [
    ClassDecl("Property", PropNs + "Property"),
    ClassDecl("TimePoint", TimeNs + "TimePoint"),
    ClassDecl("Location", LocNs + "Location"),
    ClassDecl("EconomicIndicator", EconNs + "EconomicIndicator")
  ]

  const Subclasses: seq<SubclassDecl> := [
    SubclassDecl("NationalEconomicIndicator", EconNs + "NationalEconomicIndicator", EconNs + "EconomicIndicator"),
    SubclassDecl("LocalEconomicIndicator", EconNs + "LocalEconomicIndicator", EconNs + "EconomicIndicator"),
    SubclassDecl("HousingMarketIndicator", HouseNs + "HousingMarketIndicator", EconNs + "LocalEconomicIndicator"),
    SubclassDecl("Year", TimeNs + "Year", TimeNs + "TimePoint"),
    SubclassDecl("YearMonth", TimeNs + "YearMonth", TimeNs + "TimePoint"),
    SubclassDecl("FullDate", TimeNs + "FullDate", TimeNs + "TimePoint")
  ]

  const ObjectProperties: seq<ObjectPropertyDecl> := [
    ObjectPropertyDecl("hasLocation", PropNs + "hasLocation", PropNs + "Property", LocNs + "Location"),
    ObjectPropertyDecl("soldAt", PropNs + "soldAt", PropNs + "Property", TimeNs + "TimePoint"),
    ObjectPropertyDecl("hasProperty", LocNs + "hasProperty", LocNs + "Location", PropNs + "Property"),
    ObjectPropertyDecl("hasEconomicIndicator", LocNs + "hasEconomicIndicator", LocNs + "Location", EconNs + "EconomicIndicator"),
    ObjectPropertyDecl("measuredAt", EconNs + "measuredAt", EconNs + "EconomicIndicator", TimeNs + "TimePoint")
  ]

  /** The data-property dictionary, in its insertion order. */
  const DataProperties: seq<DataPropertyDecl> := [
    DataPropertyDecl("price", PropNs + "price"),
    DataPropertyDecl("propertyType", PropNs + "propertyType"),
    DataPropertyDecl("newBuild", PropNs + "newBuild"),
    DataPropertyDecl("tenure", PropNs + "tenure"),
    DataPropertyDecl("name", LocNs + "name"),
    DataPropertyDecl("date", TimeNs + "date"),
    DataPropertyDecl("year", TimeNs + "year"),
    DataPropertyDecl("yearMonth", TimeNs + "yearMonth"),
    DataPropertyDecl("rate", EconNs + "rate"),
    DataPropertyDecl("rateType", EconNs + "rateType"),
    DataPropertyDecl("additionalDwellings", HouseNs + "additionalDwellings"),
    DataPropertyDecl("schoolCount", HouseNs + "schoolCount"),
    DataPropertyDecl("unemploymentRate", EconNs + "unemploymentRate"),
    DataPropertyDecl("transactionStatus", PropNs + "transactionStatus"),
    DataPropertyDecl("transactionCategory", PropNs + "transactionCategory"),
    DataPropertyDecl("address1", PropNs + "address1"),
    DataPropertyDecl("address2", PropNs + "address2"),
    DataPropertyDecl("street", PropNs + "street"),
    DataPropertyDecl("locationName", PropNs + "locationName"),
    DataPropertyDecl("postcode", PropNs + "postcode")
  ]

  // ---------------------------------------------------------------------------
  // Date formats

  const YearFormat := "%Y"
  const YearMonthFormat := "%Y-%m"
  const FullDateFormat := "%Y-%m-%d"
  const DayMonthYearFormat := "%d %b %y"
  const AcademicYearFormat := "ACADEMIC_YEAR"
  const YearMonthNameFormat := "YYYY MMM"
  const YearQuarterFormat := "YYYY Q"

  const DateFormats: map<string, string> := map[
    "YYYY" := YearFormat,
    "YYYY-MM" := YearMonthFormat,
    "YYYY-MM-DD" := FullDateFormat,
    "DD MMM YY" := DayMonthYearFormat,
    "ACADEMIC_YEAR" := AcademicYearFormat,
    "YYYY MMM" := YearMonthNameFormat,
    "YYYY Q" := YearQuarterFormat
  ]

  // ---------------------------------------------------------------------------
  // Source mappings

  /** How one source column becomes triples.  `relatedClass` is `Some(c)` for a
      relationship field (`'object': True` with `'class': c`). */
  datatype FieldRule = FieldRule(
    property: string,
    literalType: Option<string>,
    valueMap: Option<map<string, string>>,
    validValues: Option<seq<string>>,
    relatedClass: Option<string>)

  datatype Field = Field(name: string, rule: FieldRule)

  /** A URI template `base + "{" + placeholder + "}"`. */
  datatype UriPattern = UriPattern(base: string, placeholder: string)

  /** A declared date format, or an ordered list of candidate formats. */
  datatype DateFormatSpec = OneFormat(format: string) | FormatList(formats: seq<string>)

  datatype SourceMapping = SourceMapping(
    cls: string,
    uriPattern: UriPattern,
    dateFormat: DateFormatSpec,
    fields: seq<Field>)

  function Plain(property: string, literalType: string): FieldRule {
    FieldRule(property, Some(literalType), None, None, None)
  }

  function Coded(property: string, valueMap: map<string, string>, validValues: seq<string>): FieldRule {
    FieldRule(property, Some(XsdString), Some(valueMap), Some(validValues), None)
  }

  const PropertyTypeRule := Coded(PropNs + "propertyType",
    map["d" := "detached", "s" := "semi-detached", "t" := "terraced", "f" := "flats/maisonettes", "o" := "other"],
    ["d", "s", "t", "f", "o"])

  const OldNewRule := Coded(PropNs + "oldNew",
    map["y" := "newly built", "n" := "established residential building"],
    ["y", "n"])

  const TenureRule := Coded(PropNs + "tenure",
    map["f" := "freehold", "l" := "leasehold"],
    ["f", "l"])

  const TransactionCategoryRule := Coded(PropNs + "transactionCategory",
    map["a" := "standard transaction", "b" := "non-standard transaction"],
    ["a", "b"])

  const PricePaid := SourceMapping(
    PropNs + "Property",
    UriPattern(PropNs + "Property/", "transaction_id"),
    OneFormat(FullDateFormat),
    [
      Field("transaction_id", Plain(PropNs + "transactionId", XsdString)),
      Field("price", Plain(PropNs + "price", XsdInteger)),
      Field("date", Plain(TimeNs + "date", XsdDateTime)),
      Field("postcode", Plain(PropNs + "postcode", XsdString)),
      Field("property_type", PropertyTypeRule),
      Field("old_new", OldNewRule),
      Field("freehold_leasehold", TenureRule),
      Field("transaction_category", TransactionCategoryRule),
      Field("transaction_status", FieldRule(PropNs + "transactionStatus", Some(XsdString), None, Some(["a", "c"]), None)),
      Field("address_1", Plain(PropNs + "address1", XsdString)),
      Field("address_2", Plain(PropNs + "address2", XsdString)),
      Field("location_name", FieldRule(PropNs + "hasLocation", None, None, None, Some(LocNs + "Location")))
    ])

  const AdditionalDwellings := SourceMapping(
    HouseNs + "HousingMarketIndicator",
    UriPattern(HouseNs + "HousingMarketIndicator/", "unique_id"),
    OneFormat(YearFormat),
    [
      Field("location_name", Plain(PropNs + "hasLocation", XsdString)),
      Field("date", Plain(TimeNs + "date", XsdGYear)),
      Field("additional_dwellings", Plain(HouseNs + "additionalDwellings", XsdDecimal))
    ])

  const BoeRate := SourceMapping(
    EconNs + "NationalEconomicIndicator",
    UriPattern(EconNs + "NationalEconomicIndicator/", "unique_id"),
    OneFormat(DayMonthYearFormat),
    [
      Field("date", Plain(TimeNs + "date", XsdDate)),
      Field("rate", Plain(EconNs + "rate", XsdDecimal))
    ])

  const MortgageRate := SourceMapping(
    EconNs + "LocalEconomicIndicator",
    UriPattern(EconNs + "LocalEconomicIndicator/", "unique_id"),
    OneFormat(YearMonthFormat),
    [
      Field("rate_type", Plain(EconNs + "rateType", XsdString)),
      Field("date", Plain(TimeNs + "date", XsdGYearMonth)),
      Field("rate", Plain(EconNs + "rate", XsdDecimal))
    ])

  const SchoolCount := SourceMapping(
    HouseNs + "HousingMarketIndicator",
    UriPattern(HouseNs + "HousingMarketIndicator/", "unique_id"),
    OneFormat(AcademicYearFormat),
    [
      Field("date", Plain(TimeNs + "date", XsdGYear)),
      Field("location_name", Plain(PropNs + "hasLocation", XsdString)),
      Field("school_count", Plain(HouseNs + "schoolCount", XsdInteger))
    ])

  const Unemployment := SourceMapping(
    EconNs + "NationalEconomicIndicator",
    UriPattern(EconNs + "NationalEconomicIndicator/", "unique_id"),
    FormatList([YearFormat, YearMonthNameFormat, YearQuarterFormat]),
    [
      Field("date", Plain(TimeNs + "date", XsdGYear)),
      Field("unemployment_rate", Plain(EconNs + "unemploymentRate", XsdDecimal))
    ])

  const Mappings: map<string, SourceMapping> := map[
    "price_paid" := PricePaid,
    "additional_dwellings" := AdditionalDwellings,
    "boe_rate" := BoeRate,
    "mortgage_rate" := MortgageRate,
    "school_count" := SchoolCount,
    "unemployment" := Unemployment
  ]

  // ---------------------------------------------------------------------------
  // Facts about the registry

  /** Every raw value that a field's `valid_values` admits is a key of its value map. */
  ghost predicate ValidatedValuesAreMapped(m: SourceMapping) {
    forall i, v ::
      (0 <= i < |m.fields| && m.fields[i].rule.valueMap.Some? && m.fields[i].rule.validValues.Some?
       && v in m.fields[i].rule.validValues.value)
      ==> v in m.fields[i].rule.valueMap.value
  }

  /** Where a field carries both rules, its valid values are exactly the value
      map's keys, so a value that passes validation always has a mapping. */
  lemma ValidValuesAreMappingKeys()
    ensures forall s, i ::
      (s in Mappings && 0 <= i < |Mappings[s].fields|
       && Mappings[s].fields[i].rule.valueMap.Some? && Mappings[s].fields[i].rule.validValues.Some?)
      ==> (set v | v in Mappings[s].fields[i].rule.validValues.value) == Mappings[s].fields[i].rule.valueMap.value.Keys
    ensures forall s :: s in Mappings ==> ValidatedValuesAreMapped(Mappings[s])
    ensures forall s, i ::
      (s in Mappings && 0 <= i < |Mappings[s].fields| && Mappings[s].fields[i].rule.valueMap.Some?)
      ==> Mappings[s].fields[i].rule.validValues.Some?
  {
    PricePaidRulesAgree();
    OtherSourcesUncoded();
    forall s | s in Mappings
      ensures forall i :: 0 <= i < |Mappings[s].fields| ==> RuleKeysAgree(Mappings[s].fields[i].rule)
    {
      if s != "price_paid" {
        assert forall i :: 0 <= i < |Mappings[s].fields| ==> Mappings[s].fields[i].rule.valueMap.None?;
      }
    }
  }

  /** A value map's keys are exactly the rule's valid values. */
  ghost predicate RuleKeysAgree(r: FieldRule) {
    r.valueMap.Some? ==> r.validValues.Some? && (set v | v in r.validValues.value) == r.valueMap.value.Keys
  }

  lemma CodedRuleAgrees(property: string, valueMap: map<string, string>, validValues: seq<string>)
    requires forall v :: v in valueMap <==> v in validValues
    ensures RuleKeysAgree(Coded(property, valueMap, validValues))
  {
    assert (set v | v in validValues) == valueMap.Keys;
  }

  lemma PricePaidRulesAgree()
    ensures forall i :: 0 <= i < |PricePaid.fields| ==> RuleKeysAgree(PricePaid.fields[i].rule)
  {
    CodedRuleAgrees(PropNs + "propertyType",
      map["d" := "detached", "s" := "semi-detached", "t" := "terraced", "f" := "flats/maisonettes", "o" := "other"],
      ["d", "s", "t", "f", "o"]);
    CodedRuleAgrees(PropNs + "oldNew",
      map["y" := "newly built", "n" := "established residential building"],
      ["y", "n"]);
    CodedRuleAgrees(PropNs + "tenure", map["f" := "freehold", "l" := "leasehold"], ["f", "l"]);
    CodedRuleAgrees(PropNs + "transactionCategory",
      map["a" := "standard transaction", "b" := "non-standard transaction"],
      ["a", "b"]);
  }

  lemma OtherSourcesUncoded()
    ensures forall s, i :: s in Mappings && s != "price_paid" && 0 <= i < |Mappings[s].fields| ==>
      Mappings[s].fields[i].rule.valueMap.None?
  {
  }

  /** `transaction_status` is validated against {a, c} but has no value map, so
      its raw code is written as the literal. */
  lemma TransactionStatusIsUnmapped()
    ensures PricePaid.fields[8].name == "transaction_status"
    ensures PricePaid.fields[8].rule.validValues == Some(["a", "c"])
    ensures PricePaid.fields[8].rule.valueMap.None? && PricePaid.fields[8].rule.relatedClass.None?
  {
  }

  /** `price_paid` entities are keyed by `{transaction_id}`; every other source by `{unique_id}`. */
  lemma UriPlaceholders()
    ensures forall s :: s in Mappings ==>
      Mappings[s].uriPattern.placeholder == (if s == "price_paid" then "transaction_id" else "unique_id")
  {
  }

  /** The date-format table maps distinct names to distinct formats. */
  lemma DateFormatsDistinct()
    ensures forall a, b :: a in DateFormats && b in DateFormats && a != b ==> DateFormats[a] != DateFormats[b]
  {
  }

  /** Does the mapping declare a field with this name? */
  predicate HasField(m: SourceMapping, name: string) {
    exists i :: 0 <= i < |m.fields| && m.fields[i].name == name
  }

  /** Every mapping has a `date` field; only `unemployment` declares a list of
      formats, and that list is YYYY, then YYYY MMM, then YYYY Q. */
  lemma DateDeclarations()
    ensures forall s :: s in Mappings ==> HasField(Mappings[s], "date")
    ensures forall s :: s in Mappings && Mappings[s].dateFormat.FormatList? ==> s == "unemployment"
    ensures Unemployment.dateFormat.formats == [DateFormats["YYYY"], DateFormats["YYYY MMM"], DateFormats["YYYY Q"]]
  {
    assert PricePaid.fields[2].name == "date";
    assert AdditionalDwellings.fields[1].name == "date";
    assert BoeRate.fields[0].name == "date";
    assert MortgageRate.fields[1].name == "date";
    assert SchoolCount.fields[0].name == "date";
    assert Unemployment.fields[0].name == "date";
  }

  /** The one relationship field is `price_paid.location_name`, pointing at
      `loc:Location`; the other `location_name` fields are literals. */
  lemma OnlyPricePaidLocationIsRelationship()
    ensures forall s, i ::
      (s in Mappings && 0 <= i < |Mappings[s].fields| && Mappings[s].fields[i].rule.relatedClass.Some?)
      ==> s == "price_paid" && Mappings[s].fields[i].name == "location_name"
    ensures PricePaid.fields[11].name == "location_name"
    ensures PricePaid.fields[11].rule.relatedClass == Some(LocNs + "Location")
  {
  }

  function ClassUris(): set<string> {
    set c | c in Classes :: c.uri
  }

  function SubclassUris(): set<string> {
    set c | c in Subclasses :: c.uri
  }

  /** Every subclass hangs off a declared class or subclass. */
  lemma SubclassParentsDeclared()
    ensures forall c :: c in Subclasses ==> c.parent in ClassUris() + SubclassUris()
  {
    assert Classes[1].uri == TimeNs + "TimePoint";
    assert Classes[3].uri == EconNs + "EconomicIndicator";
    assert Subclasses[1].uri == EconNs + "LocalEconomicIndicator";
  }
}
