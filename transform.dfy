/**
  The row mapper: one source row becomes triples in a chunk graph, and its
  failure, if any, is recorded in the run summary.  The pure functions state
  what each field and each row contributes; the methods do it in place, the
  way the transform stage does, and are proved to agree with them.
*/
module Transform {
  import opened PyStr
  import opened Rdf
  import opened Registry
  import opened Dates
  import opened Locations

  /** A row: column name to the text of its cell; a missing column is an
      absent key and a NaN cell is None. */
  type Row = map<string, Option<string>>

  /** `str(cell)`: NaN prints as "nan". */
  function CellText(cell: Option<string>): string {
    match cell
    case Some(text) => text
    case None => "nan"
  }

  // ---------------------------------------------------------------------------
  // The summary

  /** The `summary` dictionary the transform fills for one source. */
  class Summary {
    var totalRows: nat
    var mappedRows: nat
    var skippedDates: set<string>
    var invalidLocations: set<string>
    var errors: seq<string>

    constructor ()
      ensures totalRows == 0 && mappedRows == 0
      ensures skippedDates == {} && invalidLocations == {} && errors == []
    {
      totalRows := 0;
      mappedRows := 0;
      skippedDates := {};
      invalidLocations := {};
      errors := [];
    }

    /** `summary['errors'].append(message)`. */
    method AddError(message: string)
      modifies this
      ensures errors == old(errors) + [message]
      ensures totalRows == old(totalRows) && mappedRows == old(mappedRows)
      ensures skippedDates == old(skippedDates) && invalidLocations == old(invalidLocations)
    {
      errors := errors + [message];
    }

    /** `summary['skipped_dates'].add(raw)`. */
    method SkipDate(raw: string)
      modifies this
      ensures skippedDates == old(skippedDates) + {raw}
      ensures totalRows == old(totalRows) && mappedRows == old(mappedRows)
      ensures errors == old(errors) && invalidLocations == old(invalidLocations)
    {
      skippedDates := skippedDates + {raw};
    }
  }

  /** Why a row stops: a rejected or unmapped coded value, a date that is
      skipped, or an exception caught by the row mapper. */
  datatype Failure =
    | InvalidValue(value: string, field: string)
    | NoMapping(value: string, field: string)
    | SkippedDate(raw: string)
    | Caught(message: string)

  /** The line a failure appends to `summary['errors']`, if any. */
  function ErrorsOf(failure: Option<Failure>): (r: seq<string>)
    ensures |r| <= 1
    ensures r == [] <==> failure.None? || failure.value.SkippedDate?
  {
    match failure
    case Some(InvalidValue(v, f)) => ["Invalid value '" + v + "' for field '" + f + "'"]
    case Some(NoMapping(v, f)) => ["No mapping found for value '" + v + "' in field '" + f + "'"]
    case Some(Caught(e)) => [e]
    case _ => []
  }

  /** The raw value a failure adds to `summary['skipped_dates']`, if any. */
  function SkippedOf(failure: Option<Failure>): (r: set<string>)
    ensures r != {} <==> failure.Some? && failure.value.SkippedDate?
  {
    match failure
    case Some(SkippedDate(raw)) => {raw}
    case _ => {}
  }

  /** What one step of the mapper adds to the graph, and whether it stops the row. */
  datatype Step = Step(added: set<Triple>, failure: Option<Failure>)

  // ---------------------------------------------------------------------------
  // Fields

  /** The date branch: parse, read the year, compare with the watermark and
      link the time node.  Every way of not linking skips the raw value,
      except exceptions, which become errors. */
  function DateStep(value: string, spec: DateFormatSpec, entity: string, property: string, watermark: int, lib: DateLibrary): (r: Step)
    ensures r.failure.Some? ==> r.added == {} && (r.failure.value == SkippedDate(value) || r.failure.value.Caught?)
  {
    ParsedDateStep(value, ParseDate(Some(value), spec, lib), entity, property, watermark)
  }

  /** The date branch once `parse_date` has answered. */
  function ParsedDateStep(value: string, parsed: DateParse, entity: string, property: string, watermark: int): (r: Step)
    ensures r.failure.Some? ==> r.added == {} && (r.failure.value == SkippedDate(value) || r.failure.value.Caught?)
  {
    match parsed
    case Raised(e) => Step({}, Some(Caught(e)))
    case Unparsed => Step({}, Some(SkippedDate(value)))
    case Parsed(t) => if t == [] then Step({}, Some(SkippedDate(value))) else LinkDateStep(value, t, entity, property, watermark)
  }

  /** The date branch for a non-empty parsed text `t`. */
  function LinkDateStep(value: string, t: string, entity: string, property: string, watermark: int): (r: Step)
    ensures r.failure.Some? ==> r.added == {} && (r.failure.value == SkippedDate(value) || r.failure.value.Caught?)
  {
    match IntOf(Split(t, '-')[0])
    case Err(e) => Step({}, Some(Caught(e)))
    case Ok(year) =>
      if year < watermark then Step({}, Some(SkippedDate(value)))
      else NodeStep(value, t, entity, property, watermark)
  }

  /** The time node for `t` and the link to it, or a skipped date when there is no node. */
  function NodeStep(value: string, t: string, entity: string, property: string, watermark: int): (r: Step)
    ensures r.failure.Some? ==> r.added == {} && r.failure.value == SkippedDate(value)
  {
    match DateEntity(t, watermark)
    case None => Step({}, Some(SkippedDate(value)))
    case Some(node) => Step(node.triples + {Triple(Iri(entity), Iri(property), Iri(node.uri))}, None)
  }

  /** The relationship branch: the value, made URI-safe, names a node of the related class. */
  function RelationStep(value: string, entity: string, property: string, cls: string): (r: Step)
    ensures r.failure.Some? <==> value == []
    ensures r.failure.Some? ==> r.added == {} && r.failure.value.Caught?
  {
    match SanitizeUri(value)
    case Err(e) => Step({}, Some(Caught(e)))
    case Ok(safe) =>
      var target := cls + "/" + safe;
      Step({Triple(Iri(entity), Iri(property), Iri(target)), Triple(Iri(target), RdfType, Iri(cls))}, None)
  }

  /** The literal branch: the declared datatype, or xsd:string. */
  function LiteralStep(value: string, entity: string, rule: FieldRule): Step {
    var datatypeIri := match rule.literalType case Some(t) => t case None => XsdString;
    Step({Triple(Iri(entity), Iri(rule.property), TypedLiteral(value, datatypeIri))}, None)
  }

  /** One field of the mapping, applied to the row: absent and NaN cells are
      passed over; the checks run valid values, then value map, then the
      date, relationship or literal branch. */
  function FieldStep(row: Row, field: Field, spec: DateFormatSpec, entity: string, watermark: int, lib: DateLibrary): Step {
    if field.name !in row || row[field.name].None? then Step({}, None)
    else
      var original := row[field.name].value;
      var rule := field.rule;
      if rule.validValues.Some? && original !in rule.validValues.value then
        Step({}, Some(InvalidValue(original, field.name)))
      else if rule.valueMap.Some? && original !in rule.valueMap.value then
        Step({}, Some(NoMapping(original, field.name)))
      else
        var value := if rule.valueMap.Some? then rule.valueMap.value[original] else original;
        if field.name == "date" then DateStep(value, spec, entity, rule.property, watermark, lib)
        else if rule.relatedClass.Some? then RelationStep(value, entity, rule.property, rule.relatedClass.value)
        else LiteralStep(value, entity, rule)
  }

  /** The fields in declared order, up to the first that stops the row. */
  function FieldsStep(row: Row, fields: seq<Field>, spec: DateFormatSpec, entity: string, watermark: int, lib: DateLibrary): Step {
    if fields == [] then Step({}, None)
    else
      var first := FieldStep(row, fields[0], spec, entity, watermark, lib);
      if first.failure.Some? then first
      else
        var rest := FieldsStep(row, fields[1..], spec, entity, watermark, lib);
        Step(first.added + rest.added, rest.failure)
  }

  // ---------------------------------------------------------------------------
  // Rows

  /** `iri.split('#')[-1]`. */
  function LocalName(iri: string): string {
    var parts := Split(iri, '#');
    parts[|parts| - 1]
  }

  /** `text.replace('{', '').replace('}', '')`. */
  function StripBraces(text: string): (r: string)
    ensures |r| <= |text|
    ensures '{' !in r && '}' !in r
  {
    if text == [] then []
    else if text[0] == '{' || text[0] == '}' then StripBraces(text[1..])
    else [text[0]] + StripBraces(text[1..])
  }

  /** `pattern.format(name=value)`: a KeyError naming the placeholder when the
      keyword does not match it. */
  function FormatUri(pattern: UriPattern, name: string, value: string): Result<string> {
    if pattern.placeholder == name then Ok(pattern.base + value)
    else Err("'" + pattern.placeholder + "'")
  }

  /** The entity URI: keyed by the row's transaction id when it has that
      column, otherwise by a fresh identifier prefixed with the class name. */
  function EntityUri(row: Row, mapping: SourceMapping, freshId: string): Result<string> {
    if "transaction_id" in row then
      FormatUri(mapping.uriPattern, "transaction_id", StripBraces(CellText(row["transaction_id"])))
    else
      FormatUri(mapping.uriPattern, "unique_id", LocalName(mapping.cls) + "_" + freshId)
  }

  function TypeTriple(entity: string, cls: string): Triple {
    Triple(Iri(entity), RdfType, Iri(cls))
  }

  /** What `transform_row_to_rdf` does with one row: the type triple, then the
      fields; a failure keeps what was added before it. */
  function RowStep(row: Row, mapping: SourceMapping, watermark: int, lib: DateLibrary, freshId: string): Step {
    match EntityUri(row, mapping, freshId)
    case Err(e) => Step({}, Some(Caught(e)))
    case Ok(entity) =>
      var fields := FieldsStep(row, mapping.fields, mapping.dateFormat, entity, watermark, lib);
      Step({TypeTriple(entity, mapping.cls)} + fields.added, fields.failure)
  }

  /** The step that continues with the rest of the fields after `first`. */
  function Then(first: set<Triple>, rest: Step): Step {
    Step(first + rest.added, rest.failure)
  }

  lemma FieldsStepAt(row: Row, fields: seq<Field>, spec: DateFormatSpec, entity: string, watermark: int, lib: DateLibrary, i: nat)
    requires i < |fields|
    ensures var first := FieldStep(row, fields[i], spec, entity, watermark, lib);
      FieldsStep(row, fields[i..], spec, entity, watermark, lib) ==
        if first.failure.Some? then first else Then(first.added, FieldsStep(row, fields[i + 1..], spec, entity, watermark, lib))
  {
    assert fields[i..][0] == fields[i];
    assert fields[i..][1..] == fields[i + 1..];
  }

  // ---------------------------------------------------------------------------
  // What the row mapper promises

  /** A field that fails adds nothing of its own: the date, relationship and
      literal branches add triples only on success.  The failures name what
      they should: a rejected or unmapped value is the raw cell of that
      field, and only the `date` field skips dates. */
  lemma FieldStepFailure(row: Row, field: Field, spec: DateFormatSpec, entity: string, watermark: int, lib: DateLibrary)
    requires FieldStep(row, field, spec, entity, watermark, lib).failure.Some?
    ensures FieldStep(row, field, spec, entity, watermark, lib).added == {}
    ensures field.name in row && row[field.name].Some?
    ensures var f := FieldStep(row, field, spec, entity, watermark, lib).failure.value;
      && (f.InvalidValue? || f.NoMapping? ==> f.value == row[field.name].value && f.field == field.name)
      && (f.SkippedDate? ==> field.name == "date")
  {
    var rule := field.rule;
    var original := row[field.name].value;
    if !(rule.validValues.Some? && original !in rule.validValues.value) && !(rule.valueMap.Some? && original !in rule.valueMap.value) {
      var value := if rule.valueMap.Some? then rule.valueMap.value[original] else original;
      if field.name == "date" {
        assert FieldStep(row, field, spec, entity, watermark, lib) == DateStep(value, spec, entity, rule.property, watermark, lib);
      } else if rule.relatedClass.Some? {
        assert FieldStep(row, field, spec, entity, watermark, lib) == RelationStep(value, entity, rule.property, rule.relatedClass.value);
      }
    }
  }

  /** The row passes exactly when every field passes on its own. */
  lemma {:induction false} FieldsStepPasses(row: Row, fields: seq<Field>, spec: DateFormatSpec, entity: string, watermark: int, lib: DateLibrary)
    ensures FieldsStep(row, fields, spec, entity, watermark, lib).failure.None?
      <==> forall j :: 0 <= j < |fields| ==> FieldStep(row, fields[j], spec, entity, watermark, lib).failure.None?
  {
    if fields != [] {
      FieldsStepPasses(row, fields[1..], spec, entity, watermark, lib);
      assert forall j :: 1 <= j < |fields| ==> fields[j] == fields[1..][j - 1];
    }
  }

  /** Partial rows: every field up to and including the first that fails keeps
      its triples, and the first failure is the row's failure. */
  lemma {:induction false} FieldsStepKeeps(row: Row, fields: seq<Field>, spec: DateFormatSpec, entity: string, watermark: int, lib: DateLibrary, j: nat)
    requires j < |fields|
    requires forall k :: 0 <= k < j ==> FieldStep(row, fields[k], spec, entity, watermark, lib).failure.None?
    ensures FieldStep(row, fields[j], spec, entity, watermark, lib).added <= FieldsStep(row, fields, spec, entity, watermark, lib).added
    ensures FieldStep(row, fields[j], spec, entity, watermark, lib).failure.Some? ==>
      FieldsStep(row, fields, spec, entity, watermark, lib).failure == FieldStep(row, fields[j], spec, entity, watermark, lib).failure
  {
    if j > 0 {
      assert FieldStep(row, fields[0], spec, entity, watermark, lib).failure.None?;
      assert forall k :: 0 <= k < j - 1 ==> fields[1..][k] == fields[k + 1];
      FieldsStepKeeps(row, fields[1..], spec, entity, watermark, lib, j - 1);
    }
  }

  /** Nothing comes from after the failure: every triple of the row comes from
      a field all of whose predecessors passed. */
  lemma {:induction false} FieldsStepOrigin(row: Row, fields: seq<Field>, spec: DateFormatSpec, entity: string, watermark: int, lib: DateLibrary, t: Triple)
    requires t in FieldsStep(row, fields, spec, entity, watermark, lib).added
    ensures
      exists j :: 0 <= j < |fields| && t in FieldStep(row, fields[j], spec, entity, watermark, lib).added &&
        forall k :: 0 <= k < j ==> FieldStep(row, fields[k], spec, entity, watermark, lib).failure.None?
  {
    var first := FieldStep(row, fields[0], spec, entity, watermark, lib);
    if t !in first.added {
      FieldsStepOrigin(row, fields[1..], spec, entity, watermark, lib, t);
      var j :| 0 <= j < |fields[1..]| && t in FieldStep(row, fields[1..][j], spec, entity, watermark, lib).added
        && forall k :: 0 <= k < j ==> FieldStep(row, fields[1..][k], spec, entity, watermark, lib).failure.None?;
      assert fields[1..][j] == fields[j + 1];
      assert forall k :: 1 <= k < j + 1 ==> fields[k] == fields[1..][k - 1];
    }
  }

  /** The type triple goes in first, so it is there even when a field fails. */
  lemma RowStepTyped(row: Row, mapping: SourceMapping, watermark: int, lib: DateLibrary, freshId: string)
    requires EntityUri(row, mapping, freshId).Ok?
    ensures TypeTriple(EntityUri(row, mapping, freshId).value, mapping.cls) in RowStep(row, mapping, watermark, lib, freshId).added
    ensures RowStep(row, mapping, watermark, lib, freshId).failure
      == FieldsStep(row, mapping.fields, mapping.dateFormat, EntityUri(row, mapping, freshId).value, watermark, lib).failure
  {
  }

  /** A field whose valid values are all keys of its value map never reports
      a missing mapping: validation rejects every other value first. */
  lemma ValidatedNeverUnmapped(row: Row, field: Field, spec: DateFormatSpec, entity: string, watermark: int, lib: DateLibrary)
    requires field.rule.valueMap.Some? ==>
      field.rule.validValues.Some? && forall v :: v in field.rule.validValues.value ==> v in field.rule.valueMap.value
    ensures var r := FieldStep(row, field, spec, entity, watermark, lib);
      r.failure.None? || !r.failure.value.NoMapping?
  {
  }

  /** No source of the registry ever reports "No mapping found". */
  lemma RegistryNeverUnmapped(row: Row, name: string, i: nat, entity: string, watermark: int, lib: DateLibrary)
    requires name in Mappings && i < |Mappings[name].fields|
    ensures var r := FieldStep(row, Mappings[name].fields[i], Mappings[name].dateFormat, entity, watermark, lib);
      r.failure.None? || !r.failure.value.NoMapping?
  {
    ValidValuesAreMappingKeys();
    var field := Mappings[name].fields[i];
    if field.rule.valueMap.Some? {
      assert ValidatedValuesAreMapped(Mappings[name]);
      assert forall v :: v in field.rule.validValues.value ==> v in field.rule.valueMap.value;
    }
    ValidatedNeverUnmapped(row, field, Mappings[name].dateFormat, entity, watermark, lib);
  }

  /** An unknown quarter token escapes `parse_date` as a KeyError, so the row
      mapper records it as an error, not as a skipped date. */
  lemma UnknownQuarterIsError(year: string, q: string, entity: string, property: string, watermark: int, lib: DateLibrary)
    requires year != [] && NoSpace(year) && q != [] && NoSpace(q) && Upper(q) !in QuarterStartMonth
    ensures var r := DateStep(year + " " + q, OneFormat(YearQuarterFormat), entity, property, watermark, lib);
      var message := "'" + Upper(q) + "'";
      r.failure == Some(Caught(message)) && ErrorsOf(r.failure) == [message] && SkippedOf(r.failure) == {}
  {
    QuarterMapping(year, q, lib);
    DateStepRaised(year + " " + q, OneFormat(YearQuarterFormat), entity, property, watermark, lib, "'" + Upper(q) + "'");
  }

  /** An exception out of `parse_date` is caught by the row mapper. */
  lemma DateStepRaised(value: string, spec: DateFormatSpec, entity: string, property: string, watermark: int, lib: DateLibrary, e: string)
    requires ParseDate(Some(value), spec, lib) == Raised(e)
    ensures DateStep(value, spec, entity, property, watermark, lib) == Step({}, Some(Caught(e)))
  {
  }

  /** Every outcome of the date branch: an exception from `parse_date` or from
      `int` of the year is an error; text that does not parse, a year before
      the watermark and text without a time node skip the raw value; a time
      node is added and linked, and the row goes on. */
  lemma DateStepCases(value: string, spec: DateFormatSpec, entity: string, property: string, watermark: int, lib: DateLibrary)
    ensures var r := DateStep(value, spec, entity, property, watermark, lib);
      var skip := Step({}, Some(SkippedDate(value)));
      match ParseDate(Some(value), spec, lib)
      case Raised(e) => r == Step({}, Some(Caught(e)))
      case Unparsed => r == skip
      case Parsed(t) =>
        match IntOf(Split(t, '-')[0])
        case Err(e) => r == Step({}, Some(Caught(e)))
        case Ok(year) =>
          && (year < watermark ==> r == skip)
          && (year >= watermark && DateEntity(t, watermark).None? ==> r == skip)
          && (DateEntity(t, watermark).Some? ==>
                var node := DateEntity(t, watermark).value;
                r == Step(node.triples + {Triple(Iri(entity), Iri(property), Iri(node.uri))}, None))
  {
    var parsed := ParseDate(Some(value), spec, lib);
    match spec {
      case OneFormat(f) => ParsedTextNonEmpty(Strip(value), [f], lib);
      case FormatList(fs) => ParsedTextNonEmpty(Strip(value), fs, lib);
    }
    if parsed.Parsed? {
      var t := parsed.text;
      if DateEntity(t, watermark).Some? {
        DateEntityNeedsYear(t, watermark);
      }
    }
  }

  /** The date field of a row: once the fields before it pass and its cell is
      accepted, what the date branch adds is in the row's triples, and a date
      the branch skips or rejects is the row's failure. */
  lemma RowDateField(row: Row, mapping: SourceMapping, watermark: int, lib: DateLibrary, freshId: string, j: nat)
    requires EntityUri(row, mapping, freshId).Ok?
    requires j < |mapping.fields| && mapping.fields[j].name == "date"
    requires "date" in row && row["date"].Some?
    requires var rule := mapping.fields[j].rule; var original := row["date"].value;
      && (rule.validValues.Some? ==> original in rule.validValues.value)
      && (rule.valueMap.Some? ==> original in rule.valueMap.value)
    requires var entity := EntityUri(row, mapping, freshId).value;
      forall k :: 0 <= k < j ==> FieldStep(row, mapping.fields[k], mapping.dateFormat, entity, watermark, lib).failure.None?
    ensures var entity := EntityUri(row, mapping, freshId).value;
      var rule := mapping.fields[j].rule;
      var value := if rule.valueMap.Some? then rule.valueMap.value[row["date"].value] else row["date"].value;
      var date := DateStep(value, mapping.dateFormat, entity, rule.property, watermark, lib);
      var r := RowStep(row, mapping, watermark, lib, freshId);
      && date.added <= r.added
      && (date.failure.Some? ==> r.failure == date.failure)
  {
    var entity := EntityUri(row, mapping, freshId).value;
    var rule := mapping.fields[j].rule;
    var value := if rule.valueMap.Some? then rule.valueMap.value[row["date"].value] else row["date"].value;
    assert FieldStep(row, mapping.fields[j], mapping.dateFormat, entity, watermark, lib)
      == DateStep(value, mapping.dateFormat, entity, rule.property, watermark, lib);
    FieldsStepKeeps(row, mapping.fields, mapping.dateFormat, entity, watermark, lib, j);
  }

  /** A pattern keyed by one of the two placeholders accepts exactly the rows
      that supply that key; the other rows raise KeyError naming the placeholder. */
  lemma EntityUriKeyed(row: Row, mapping: SourceMapping, freshId: string)
    requires mapping.uriPattern.placeholder in {"transaction_id", "unique_id"}
    ensures EntityUri(row, mapping, freshId).Ok?
      <==> ("transaction_id" in row <==> mapping.uriPattern.placeholder == "transaction_id")
    ensures EntityUri(row, mapping, freshId).Err? ==>
      EntityUri(row, mapping, freshId).error == "'" + mapping.uriPattern.placeholder + "'"
  {
  }

  /** Only `price_paid` rows are keyed by transaction id: a row of any other
      source that has a `transaction_id` column, or a `price_paid` row without
      one, fails on the placeholder with a KeyError. */
  lemma RegistryEntityUri(row: Row, name: string, mapping: SourceMapping, freshId: string)
    requires name in Mappings && Mappings[name] == mapping
    ensures EntityUri(row, mapping, freshId).Ok? <==> ("transaction_id" in row <==> name == "price_paid")
    ensures EntityUri(row, mapping, freshId).Err? ==>
      EntityUri(row, mapping, freshId).error == if name == "price_paid" then "'transaction_id'" else "'unique_id'"
  {
    UriPlaceholders();
    PlaceholderKeyed(row, mapping, freshId, name == "price_paid");
  }

  lemma PlaceholderKeyed(row: Row, mapping: SourceMapping, freshId: string, keyedById: bool)
    requires mapping.uriPattern.placeholder == if keyedById then "transaction_id" else "unique_id"
    ensures EntityUri(row, mapping, freshId).Ok? <==> ("transaction_id" in row <==> keyedById)
    ensures EntityUri(row, mapping, freshId).Err? ==>
      EntityUri(row, mapping, freshId).error == if keyedById then "'transaction_id'" else "'unique_id'"
  {
    assert |"transaction_id"| != |"unique_id"|;
    EntityUriKeyed(row, mapping, freshId);
  }

  /** Rows keyed by fresh identifiers get distinct URIs from distinct identifiers. */
  lemma FreshIdsGiveDistinctUris(row: Row, mapping: SourceMapping, a: string, b: string)
    requires "transaction_id" !in row && a != b
    requires EntityUri(row, mapping, a).Ok?
    ensures EntityUri(row, mapping, a) != EntityUri(row, mapping, b)
  {
    var prefix := mapping.uriPattern.base + LocalName(mapping.cls) + "_";
    var va := LocalName(mapping.cls) + "_" + a;
    var vb := LocalName(mapping.cls) + "_" + b;
    assert EntityUri(row, mapping, a) == FormatUri(mapping.uriPattern, "unique_id", va);
    assert EntityUri(row, mapping, b) == FormatUri(mapping.uriPattern, "unique_id", vb);
    assert mapping.uriPattern.base + va == prefix + a;
    assert mapping.uriPattern.base + vb == prefix + b;
    assert (prefix + a)[|prefix|..] == a;
    assert (prefix + b)[|prefix|..] == b;
  }

  /** Removing braces distributes over concatenation. */
  lemma {:induction false} StripBracesAppend(a: string, b: string)
    ensures StripBraces(a + b) == StripBraces(a) + StripBraces(b)
  {
    if a == [] {
      assert a + b == b;
    } else {
      assert (a + b)[1..] == a[1..] + b;
      StripBracesAppend(a[1..], b);
    }
  }

  /** Text without braces is kept as it is. */
  lemma {:induction false} StripBracesKeeps(text: string)
    requires '{' !in text && '}' !in text
    ensures StripBraces(text) == text
  {
    if text != [] {
      StripBracesKeeps(text[1..]);
    }
  }

  /** A braced transaction id "{X}" keys the same entity as the bare "X". */
  lemma BracedIdIsBareId(id: string)
    requires '{' !in id && '}' !in id
    ensures StripBraces("{" + id + "}") == id
  {
    StripBracesAppend("{" + id, "}");
    StripBracesAppend("{", id);
    StripBracesKeeps(id);
  }

  /** The unchanged parts of the summary. */
  predicate SameCounts(s: Summary, totalRows: nat, mappedRows: nat, invalidLocations: set<string>)
    reads s
  {
    s.totalRows == totalRows && s.mappedRows == mappedRows && s.invalidLocations == invalidLocations
  }

  /** The date branch of `transform_row_to_rdf`, with the exceptions it can
      raise recorded the way the row mapper's handler records them. */
  method MapDateField(value: string, spec: DateFormatSpec, entity: string, property: string,
                      graph: Graph, watermark: int, lib: DateLibrary, summary: Summary) returns (ok: bool)
    modifies graph, summary
    ensures var step := DateStep(value, spec, entity, property, watermark, lib);
      && graph.triples == old(graph.triples) + step.added
      && ok == step.failure.None?
      && summary.errors == old(summary.errors) + ErrorsOf(step.failure)
      && summary.skippedDates == old(summary.skippedDates) + SkippedOf(step.failure)
    ensures SameCounts(summary, old(summary.totalRows), old(summary.mappedRows), old(summary.invalidLocations))
  {
    var parsed := ParseDate(Some(value), spec, lib);
    ok := MapParsedDate(value, parsed, entity, property, graph, watermark, summary);
  }

  /** The date branch once `parse_date` has answered. */
  method MapParsedDate(value: string, parsed: DateParse, entity: string, property: string,
                       graph: Graph, watermark: int, summary: Summary) returns (ok: bool)
    modifies graph, summary
    ensures var step := ParsedDateStep(value, parsed, entity, property, watermark);
      && graph.triples == old(graph.triples) + step.added
      && ok == step.failure.None?
      && summary.errors == old(summary.errors) + ErrorsOf(step.failure)
      && summary.skippedDates == old(summary.skippedDates) + SkippedOf(step.failure)
    ensures SameCounts(summary, old(summary.totalRows), old(summary.mappedRows), old(summary.invalidLocations))
  {
    if parsed.Raised? {
      summary.AddError(parsed.error);
      ok := false;
    } else if parsed.Parsed? && parsed.text != [] {
      ok := LinkDate(value, parsed.text, entity, property, graph, watermark, summary);
    } else {
      summary.SkipDate(value);
      ok := false;
    }
  }

  /** From the parsed text on: read the year, compare it with the watermark,
      add the time node and link it to the entity. */
  method LinkDate(value: string, t: string, entity: string, property: string,
                  graph: Graph, watermark: int, summary: Summary) returns (ok: bool)
    requires t != []
    modifies graph, summary
    ensures var step := LinkDateStep(value, t, entity, property, watermark);
      && graph.triples == old(graph.triples) + step.added
      && ok == step.failure.None?
      && summary.errors == old(summary.errors) + ErrorsOf(step.failure)
      && summary.skippedDates == old(summary.skippedDates) + SkippedOf(step.failure)
    ensures SameCounts(summary, old(summary.totalRows), old(summary.mappedRows), old(summary.invalidLocations))
  {
    var year := IntOf(Split(t, '-')[0]);
    if year.Err? {
      assert LinkDateStep(value, t, entity, property, watermark) == Step({}, Some(Caught(year.error)));
      summary.AddError(year.error);
      return false;
    }
    if year.value < watermark {
      assert LinkDateStep(value, t, entity, property, watermark) == Step({}, Some(SkippedDate(value)));
      summary.SkipDate(value);
      return false;
    }
    assert LinkDateStep(value, t, entity, property, watermark) == NodeStep(value, t, entity, property, watermark);
    ok := LinkTimeNode(value, t, entity, property, graph, watermark, summary);
  }

  /** Adds the time node and links the entity to it, or skips the raw value. */
  method LinkTimeNode(value: string, t: string, entity: string, property: string,
                      graph: Graph, watermark: int, summary: Summary) returns (ok: bool)
    modifies graph, summary
    ensures var step := NodeStep(value, t, entity, property, watermark);
      && graph.triples == old(graph.triples) + step.added
      && ok == step.failure.None?
      && summary.errors == old(summary.errors)
      && summary.skippedDates == old(summary.skippedDates) + SkippedOf(step.failure)
    ensures SameCounts(summary, old(summary.totalRows), old(summary.mappedRows), old(summary.invalidLocations))
  {
    var dateUri := MapDateToOntology(t, graph, watermark);
    if dateUri.Some? {
      graph.Add(Triple(Iri(entity), Iri(property), Iri(dateUri.value)));
      ok := true;
    } else {
      summary.SkipDate(value);
      ok := false;
    }
  }

  /** One field of `transform_row_to_rdf`'s loop, applied in place. */
  method MapField(row: Row, field: Field, spec: DateFormatSpec, entity: string,
                  graph: Graph, watermark: int, lib: DateLibrary, summary: Summary) returns (ok: bool)
    modifies graph, summary
    ensures var step := FieldStep(row, field, spec, entity, watermark, lib);
      && graph.triples == old(graph.triples) + step.added
      && ok == step.failure.None?
      && summary.errors == old(summary.errors) + ErrorsOf(step.failure)
      && summary.skippedDates == old(summary.skippedDates) + SkippedOf(step.failure)
    ensures SameCounts(summary, old(summary.totalRows), old(summary.mappedRows), old(summary.invalidLocations))
  {
    if field.name !in row || row[field.name].None? {
      return true;
    }
    var original := row[field.name].value;
    var rule := field.rule;
    if rule.validValues.Some? && original !in rule.validValues.value {
      summary.AddError("Invalid value '" + original + "' for field '" + field.name + "'");
      return false;
    }
    var value := original;
    if rule.valueMap.Some? {
      if original in rule.valueMap.value {
        value := rule.valueMap.value[original];
      } else {
        summary.AddError("No mapping found for value '" + original + "' in field '" + field.name + "'");
        return false;
      }
    }
    if field.name == "date" {
      ok := MapDateField(value, spec, entity, rule.property, graph, watermark, lib, summary);
    } else if rule.relatedClass.Some? {
      var safe := SanitizeUri(value);
      if safe.Err? {
        summary.AddError(safe.error);
        return false;
      }
      var target := rule.relatedClass.value + "/" + safe.value;
      graph.Add(Triple(Iri(entity), Iri(rule.property), Iri(target)));
      graph.Add(Triple(Iri(target), RdfType, Iri(rule.relatedClass.value)));
      ok := true;
    } else {
      var datatypeIri := if rule.literalType.Some? then rule.literalType.value else XsdString;
      graph.Add(Triple(Iri(entity), Iri(rule.property), TypedLiteral(value, datatypeIri)));
      ok := true;
    }
  }

  /** `transform_row_to_rdf`: the type triple, then each field in order until
      one fails; the graph keeps what was added before the failure, and the
      failure is recorded in the summary. */
  method TransformRowToRdf(row: Row, mapping: SourceMapping, graph: Graph, watermark: int,
                           lib: DateLibrary, freshId: string, summary: Summary) returns (ok: bool)
    modifies graph, summary
    ensures var step := RowStep(row, mapping, watermark, lib, freshId);
      && graph.triples == old(graph.triples) + step.added
      && ok == step.failure.None?
      && summary.errors == old(summary.errors) + ErrorsOf(step.failure)
      && summary.skippedDates == old(summary.skippedDates) + SkippedOf(step.failure)
    ensures SameCounts(summary, old(summary.totalRows), old(summary.mappedRows), old(summary.invalidLocations))
  {
    var entityUri := EntityUri(row, mapping, freshId);
    if entityUri.Err? {
      summary.AddError(entityUri.error);
      return false;
    }
    var entity := entityUri.value;
    graph.Add(TypeTriple(entity, mapping.cls));
    ok := MapFields(row, mapping.fields, mapping.dateFormat, entity, graph, watermark, lib, summary);
  }

  /** The field loop of `transform_row_to_rdf`. */
  method MapFields(row: Row, fields: seq<Field>, spec: DateFormatSpec, entity: string,
                   graph: Graph, watermark: int, lib: DateLibrary, summary: Summary) returns (ok: bool)
    modifies graph, summary
    ensures var step := FieldsStep(row, fields, spec, entity, watermark, lib);
      && graph.triples == old(graph.triples) + step.added
      && ok == step.failure.None?
      && summary.errors == old(summary.errors) + ErrorsOf(step.failure)
      && summary.skippedDates == old(summary.skippedDates) + SkippedOf(step.failure)
    ensures SameCounts(summary, old(summary.totalRows), old(summary.mappedRows), old(summary.invalidLocations))
  {
    FieldsStepChain(row, fields, spec, entity, watermark, lib);
    ok := MapFieldSteps(row, fields, spec, entity, graph, watermark, lib, summary);
  }

  /** The field loop, stated on the fields' own steps. */
  method MapFieldSteps(row: Row, fields: seq<Field>, spec: DateFormatSpec, entity: string,
                       graph: Graph, watermark: int, lib: DateLibrary, summary: Summary) returns (ok: bool)
    modifies graph, summary
    ensures var step := Chain(FieldSteps(row, fields, spec, entity, watermark, lib));
      && graph.triples == old(graph.triples) + step.added
      && ok == step.failure.None?
      && summary.errors == old(summary.errors) + ErrorsOf(step.failure)
      && summary.skippedDates == old(summary.skippedDates) + SkippedOf(step.failure)
    ensures SameCounts(summary, old(summary.totalRows), old(summary.mappedRows), old(summary.invalidLocations))
  {
    ghost var steps := FieldSteps(row, fields, spec, entity, watermark, lib);
    ghost var added: set<Triple> := {};
    var i := 0;
    while i < |fields|
      invariant i <= |fields|
      invariant Chain(steps) == Then(added, Chain(steps[i..]))
      invariant graph.triples == old(graph.triples) + added
      invariant summary.errors == old(summary.errors) && summary.skippedDates == old(summary.skippedDates)
      invariant SameCounts(summary, old(summary.totalRows), old(summary.mappedRows), old(summary.invalidLocations))
    {
      ChainAt(steps, i);
      var fieldOk := MapFieldAt(row, fields, i, spec, entity, graph, watermark, lib, summary);
      if !fieldOk {
        return false;
      }
      added := added + steps[i].added;
      i := i + 1;
    }
    ok := true;
  }

  /** Each field's own step, in declared order. */
  function FieldSteps(row: Row, fields: seq<Field>, spec: DateFormatSpec, entity: string, watermark: int, lib: DateLibrary): (r: seq<Step>)
    ensures |r| == |fields|
  {
    seq(|fields|, i requires 0 <= i < |fields| => FieldStep(row, fields[i], spec, entity, watermark, lib))
  }

  /** Steps taken in order up to the first that stops. */
  function Chain(steps: seq<Step>): Step {
    if steps == [] then Step({}, None)
    else if steps[0].failure.Some? then steps[0]
    else Then(steps[0].added, Chain(steps[1..]))
  }

  lemma ChainAt(steps: seq<Step>, i: nat)
    requires i < |steps|
    ensures Chain(steps[i..]) == if steps[i].failure.Some? then steps[i] else Then(steps[i].added, Chain(steps[i + 1..]))
  {
    assert steps[i..][0] == steps[i];
    assert steps[i..][1..] == steps[i + 1..];
  }

  /** The field loop is the chain of the fields' own steps. */
  lemma {:induction false} FieldsStepChain(row: Row, fields: seq<Field>, spec: DateFormatSpec, entity: string, watermark: int, lib: DateLibrary)
    ensures FieldsStep(row, fields, spec, entity, watermark, lib) == Chain(FieldSteps(row, fields, spec, entity, watermark, lib))
  {
    if fields != [] {
      var steps := FieldSteps(row, fields, spec, entity, watermark, lib);
      assert steps[0] == FieldStep(row, fields[0], spec, entity, watermark, lib);
      assert steps[1..] == FieldSteps(row, fields[1..], spec, entity, watermark, lib);
      FieldsStepChain(row, fields[1..], spec, entity, watermark, lib);
    }
  }

  /** The field loop's body for field `i`. */
  method MapFieldAt(row: Row, fields: seq<Field>, i: nat, spec: DateFormatSpec, entity: string,
                    graph: Graph, watermark: int, lib: DateLibrary, summary: Summary) returns (ok: bool)
    requires i < |fields|
    modifies graph, summary
    ensures var step := FieldSteps(row, fields, spec, entity, watermark, lib)[i];
      && graph.triples == old(graph.triples) + step.added
      && ok == step.failure.None?
      && summary.errors == old(summary.errors) + ErrorsOf(step.failure)
      && summary.skippedDates == old(summary.skippedDates) + SkippedOf(step.failure)
    ensures SameCounts(summary, old(summary.totalRows), old(summary.mappedRows), old(summary.invalidLocations))
  {
    assert FieldSteps(row, fields, spec, entity, watermark, lib)[i] == FieldStep(row, fields[i], spec, entity, watermark, lib);
    ok := MapField(row, fields[i], spec, entity, graph, watermark, lib, summary);
  }

}
