# etl_ontology transform stage, modelled in Dafny

This project models the part of the `etl_ontology` pipeline that turns the
preprocessed tabular sources (price-paid transactions, additional dwellings,
Bank of England rate, mortgage rates, school counts, unemployment) into RDF:

- the **ontology registry** (`ontology_config.py`): namespaces, the class and
  property skeleton, the date-format table and the per-source mappings, as
  Dafny constants (`registry.dfy`);
- the **date normaliser** (`parse_date`, `extract_earliest_year`,
  `find_common_earliest_year`, `map_date_to_ontology`) in `dates.dfy`;
- the **location helpers** (`clean_location_name`, `validate_location`,
  `sanitize_uri`) in `locations.dfy`;
- the **row mapper** (`transform_row_to_rdf`) and the run summary in
  `transform.dfy`: pure `Step` functions say what each field and each row
  contributes, and the methods, which update a `Graph` and a `Summary` in
  place the way the Python does, are proved to agree with them;
- the **chunked graph builder** (`save_graph_to_disk`,
  `load_and_transform_data`, `combine_ttl_files`) in `pipeline.dfy`, with a
  `Directory` class standing for the intermediate and output folders;
- the **ontology creator** (`OntologyCreator.create_ontology`,
  `populate_ontology`) in `ontology.dfy`;
- `pystr.dfy` and `rdf.dfy` hold the Python built-ins the code relies on
  (`strip`, `split`, `lower`, `in`, `int()`, `float()`, `str()`) and the RDF
  terms, triples and the in-memory graph.

An RDF graph is a set of triples, so adding a triple twice and the order of
additions are not observable. A row is a map from column name to the text of
its cell, with `None` for a NaN cell. The calendar parsers (`strptime`,
dateutil's `parse`), the fresh identifiers of `uuid4` and the listing of a
directory are parameters of the model.

Behaviours of the code worth noting:

- The nine-character branch of `map_date_to_ontology`
  (`etl_ontology/etl/transform.py:217-222`, commented "YYYY-YYYY (Academic
  Year)") is reachable from `parse_date`, whose docstring says academic
  years come back as their start year. The quarter branch
  (`transform.py:107-111`) copies its year token unchecked, so "123456 Q1"
  normalises to "123456-01": nine characters that split in two at the dash,
  which become an `AcademicYear` node (`Dates.SixDigitQuarterParse`,
  `Dates.SixDigitQuarterNode`). Under `unemployment`'s list of formats the
  text is not a float, so the quarter branch is reached whenever dateutil's
  `parse` also rejects it (`Dates.SixDigitUnemploymentParse`); whether it
  does is outside the model.
- The time classes the date mapper types its nodes with
  (`transform.py:205-222`) include `time:AcademicYear`, which the ontology
  skeleton (`create_populate_ontology.py:74-83`) does not declare, while
  `Year`, `YearMonth` and `FullDate` are declared (`Ontology.TimeNodeClasses`).
- `summary['invalid_locations']` is created (`transform.py:463`) but never
  written: rows with no valid location are dropped by `dropna`
  (`transform.py:483`) without a record (`Pipeline.LoadAndTransformData`
  ensures it stays empty).
- A NaN location cell makes `clean_location_name` raise `AttributeError`
  inside the chunk's location filter (`transform.py:482`). Nothing in
  `load_and_transform_data` catches it, so it ends the source's run. The
  model returns it as `aborted`, together with what the run had done by
  then (`Pipeline.RelocatedErr`).
- `combine_ttl_files` merges the chunk files in the sorted order of their
  names (`transform.py:523`), so chunk 10 comes before chunk 2. The merge is
  a set union, so the order does not change the result
  (`Pipeline.ChunkTenBeforeTwo`, `Pipeline.UnionOfOrderFree`).
- `combine_ttl_files` asks for a progress bar of `len(chunk_files)` steps
  (`transform.py:525`), which raises ValueError when no chunk file was
  written, before anything is saved (`Pipeline.CombineTtlFiles`).
- A row that fails partway keeps the triples it added before the failure,
  including its type triple (`transform.py:352-353`;
  `Transform.RowStepTyped`, `Transform.FieldsStepKeeps`).

## Model

| member | source | states |
|---|---|---|
| PyStr.Strip | etl_ontology/etl/transform.py:92 | `str.strip()`: the result is no longer than the input and has no whitespace at either end |
| PyStr.Words | etl_ontology/etl/transform.py:109 | `str.split()`: every word is non-empty and has no whitespace |
| PyStr.LayoutOfWords | etl_ontology/etl/transform.py:109 | the text is its words laid out between whitespace gaps, the inner gaps non-empty |
| PyStr.WordsOfLayout | etl_ontology/etl/transform.py:109 | any text laid out as non-empty whitespace-free words between whitespace gaps, the inner ones non-empty, splits into exactly those words; with `LayoutOfWords`, the words are the maximal non-space runs, in order |
| PyStr.UpperEachChar | etl_ontology/etl/transform.py:110 | `str.upper()` keeps the length (stated on `PyStr.Upper`) and upper-cases each character on its own, ASCII letters only |
| PyStr.LowerEachChar | etl_ontology/etl/transform.py:269 | `str.lower()` keeps the length (stated on `PyStr.Lower`) and lower-cases each character on its own, ASCII letters only |
| PyStr.Contains | etl_ontology/etl/transform.py:269 | the substring test holds exactly when the needle occurs at some offset |
| PyStr.Split | etl_ontology/etl/transform.py:201 | `str.split(c)`: at least one part, the first part is the text before the first `c`, and no part contains `c` |
| PyStr.SplitJoin | etl_ontology/etl/transform.py:201 | joining the parts with `c` gives the text back |
| PyStr.SplitOfJoin | etl_ontology/etl/transform.py:201 | splitting parts without `c` joined by `c` gives the parts back |
| PyStr.ParseIntExactly | etl_ontology/etl/transform.py:379 | `int(s)` gives `n` exactly when the stripped text is an optional sign and one or more ASCII digit groups, joined by single underscores, whose digits write `n` |
| PyStr.UnderscoreExample | etl_ontology/etl/transform.py:379 | `int("1_23")` is 123 |
| PyStr.DoubledUnderscoreRejected | etl_ontology/etl/transform.py:379 | `int("1__2")` raises ValueError |
| PyStr.IntTextRoundTrip | etl_ontology/etl/transform.py:98 | `int(str(n)) == n` |
| PyStr.ParseFloatOfDigits | etl_ontology/etl/transform.py:98 | a signed run of digits below the overflow bound reads as a finite float of that value |
| PyStr.FloatOfHugeDigits | etl_ontology/etl/transform.py:98 | a run of digits at or above the overflow bound, (2^54 - 1) * 2^970, reads as an infinity |
| PyStr.ParseFloatFinite | etl_ontology/etl/transform.py:98 | a finite float truncates to an integer of magnitude below the overflow bound |
| PyStr.ParseFloatOfDecimal | etl_ontology/etl/transform.py:98 | signed digits, a dot and digits read as a float that truncates to the whole part |
| PyStr.IntTextAsFloat | etl_ontology/etl/transform.py:98 | `float(str(n))` is the finite value `n` for `n` below the overflow bound |
| PyStr.DecimalTextAsFloat | etl_ontology/etl/transform.py:98 | "n.f" reads as a float whose truncation is `n`, for `n` below the overflow bound |
| PyStr.ParseIntOfDigits | etl_ontology/etl/transform.py:100 | a run of digits reads as its decimal value |
| PyStr.NatText | etl_ontology/etl/transform.py:430 | `str(n)` of a natural is non-empty digits, without a leading zero unless `n` is 0 |
| PyStr.NatTextValue | etl_ontology/etl/transform.py:430 | reading `str(n)` back gives `n` |
| Rdf.Graph.constructor | etl_ontology/etl/transform.py:490 | a new graph is empty |
| Rdf.Graph.Add | etl_ontology/etl/transform.py:353 | `graph.add(t)` adds exactly `t` |
| Rdf.Graph.AddAll | etl_ontology/etl/transform.py:528 | `graph += other` adds exactly the other graph's triples |
| Rdf.VocabularyDistinct | etl_ontology/ontology/create_populate_ontology.py:76-95 | the RDF, RDFS and OWL terms the skeleton uses are pairwise distinct |
| Registry.ValidValuesAreMappingKeys | etl_ontology/config/ontology_config.py:153-157 | every field with a value map also lists valid values, and they are exactly the map's keys |
| Registry.PricePaidRulesAgree | etl_ontology/config/ontology_config.py:153-156 | each coded `price_paid` field's valid values are exactly its value map's keys |
| Registry.OtherSourcesUncoded | etl_ontology/config/ontology_config.py:163-211 | no source other than `price_paid` has a value map |
| Registry.TransactionStatusIsUnmapped | etl_ontology/config/ontology_config.py:157 | `transaction_status` is validated against {a, c} and has no value map, so its raw code is written |
| Registry.UriPlaceholders | etl_ontology/config/ontology_config.py:146-204 | `price_paid` is keyed by `{transaction_id}`, every other source by `{unique_id}` |
| Registry.DateFormatsDistinct | etl_ontology/config/ontology_config.py:130-138 | distinct format names map to distinct formats |
| Registry.DateDeclarations | etl_ontology/config/ontology_config.py:143-211 | every source has a `date` field; only `unemployment` declares a list of formats, YYYY, then YYYY MMM, then YYYY Q |
| Registry.OnlyPricePaidLocationIsRelationship | etl_ontology/config/ontology_config.py:160-198 | the only relationship field is `price_paid.location_name`, pointing at `loc:Location` |
| Registry.SubclassParentsDeclared | etl_ontology/config/ontology_config.py:74-90 | every subclass's parent is a declared class or subclass |
| Dates.TryFormatDecisive | etl_ontology/etl/transform.py:95-113 | a format that is tried either returns a date or raises; it never returns "no date" itself |
| Dates.TryFormatsUnparsed | etl_ontology/etl/transform.py:95-114 | `parse_date` returns None exactly when every format fails with a ValueError or is not handled |
| Dates.TryFormatsFirstDecisive | etl_ontology/etl/transform.py:95-113 | the first format that returns or raises decides the result |
| Dates.TryFormatsSkip | etl_ontology/etl/transform.py:112-113 | a format that fails with ValueError leaves the answer to the remaining formats |
| Dates.TryFormatsHead | etl_ontology/etl/transform.py:95-111 | a first format that returns or raises is the answer |
| Dates.ParseDateOne | etl_ontology/etl/transform.py:88-114 | under one declared format, parse_date returns that format's outcome, or None when it fails with ValueError |
| Dates.TryFormatStrptime | etl_ontology/etl/transform.py:102-104 | the three strptime formats run strptime, and exactly `%d %b %y` and `%Y-%m-%d` carry a day |
| Dates.TryFormatQuarter | etl_ontology/etl/transform.py:107-111 | the `YYYY Q` format runs the quarter branch |
| Dates.QuarterPassOfPair | etl_ontology/etl/transform.py:108-111 | two words give the first word, a dash and the quarter's first month, or a KeyError naming the upper-cased token |
| Dates.ParseDateOneFormat | etl_ontology/etl/transform.py:92-93 | a single format is wrapped in a list and applied to the stripped text |
| Dates.ParsedTextNonEmpty | etl_ontology/etl/transform.py:97-111 | `parse_date` never returns the empty text, so its callers' truthiness test only rules out None |
| Dates.YearFormatCoercesFloat | etl_ontology/etl/transform.py:97-98 | the year format is `str(int(float(s)))`: truncation; NaN is a ValueError; infinity raises OverflowError, which is not caught |
| Dates.YearFormatIdempotent | etl_ontology/etl/transform.py:97-98 | normalising the text of a year below the overflow bound under the year format gives it back |
| Dates.YearFormatParsedFloat | etl_ontology/etl/transform.py:98 | a date the year format returns comes from a finite float and is the text of its truncation |
| Dates.YearFormatOutput | etl_ontology/etl/transform.py:98 | what the year format returns is the text of an integer below the overflow bound |
| Dates.YearFormatOutputStable | etl_ontology/etl/transform.py:97-98 | normalising a normalised year again reproduces it |
| Dates.YearFormatOverflow | etl_ontology/etl/transform.py:98 | digits at or above the overflow bound make `int(float(s))` raise OverflowError, which `parse_date` does not catch |
| Dates.AcademicYearTakesLeadingFour | etl_ontology/etl/transform.py:99-101 | for every text, the academic-year format is `int` of its first four characters, or of the whole text when shorter |
| Dates.AcademicYearUnderscoreExample | etl_ontology/etl/transform.py:99-101 | "1_234" gives "123": `int` reads the underscore in "1_23" |
| Dates.AcademicYearShortExample | etl_ontology/etl/transform.py:99-101 | "99" gives "99": shorter text is read whole |
| Dates.StrptimeShape | etl_ontology/etl/transform.py:102-104 | strptime formats are reformatted with the day exactly when the format has one; four-digit years give 10 or 7 characters |
| Dates.QuarterMapping | etl_ontology/etl/transform.py:108-111 | "YEAR Qn" gives YEAR and the quarter's first month, whatever the case of Qn; an unknown token raises KeyError, which is not caught |
| Dates.YearExample | etl_ontology/etl/transform.py:98 | "2021.0" normalises to "2021" |
| Dates.QuarterExample | etl_ontology/etl/transform.py:108-111 | "2019 Q3" normalises to "2019-07" |
| Dates.LowerCaseQuarterExample | etl_ontology/etl/transform.py:110 | "2019 q1" normalises to "2019-01" |
| Dates.UnknownQuarterExample | etl_ontology/etl/transform.py:110 | "2019 Q5" raises KeyError('Q5') |
| Dates.CellYears | etl_ontology/etl/transform.py:141-142 | the derived year column has one entry per date cell |
| Dates.MinYearError | etl_ontology/etl/transform.py:142-148 | the column minimum fails exactly when some cell raised |
| Dates.MinYearIsLeast | etl_ontology/etl/transform.py:145 | the minimum is one of the years and no year is below it |
| Dates.MinYearNone | etl_ontology/etl/transform.py:145-146 | the minimum is missing exactly when every year is |
| Dates.EarliestYears | etl_ontology/etl/transform.py:171 | one earliest year per source, in order |
| Dates.MaxKnownNone | etl_ontology/etl/transform.py:172-173 | there is no watermark exactly when no source has an earliest year |
| Dates.MaxKnownIsMax | etl_ontology/etl/transform.py:173 | the maximum is a known year and no known year exceeds it |
| Dates.CommonEarliestYearIsMax | etl_ontology/etl/transform.py:151-173 | the common year is missing exactly when every source's is; otherwise it is some source's earliest year and the latest of them |
| Dates.MaxKnownExample | etl_ontology/etl/transform.py:172-173 | earliest years 2005, none, 2010 and 1995 give 2010 |
| Dates.DateEntityNeedsYear | etl_ontology/etl/transform.py:197-203 | a node is made only for non-empty text whose leading year reads and is at least the watermark |
| Dates.DateEntityClass | etl_ontology/etl/transform.py:205-224 | the node's class and URI follow the text's length (4, 7, 10, 9), its type triple is among its triples, and other lengths give nothing |
| Dates.DateEntitySize | etl_ontology/etl/transform.py:205-222 | a Year, YearMonth or FullDate node has two triples, an AcademicYear three |
| Dates.DateEntityOfYear | etl_ontology/etl/transform.py:200-224 | past the year checks, the node depends only on the text's shape |
| Dates.SixDigitYearMonthText | etl_ontology/etl/transform.py:201-218 | a six-digit year, a dash and a two-digit month is nine characters, reads as that year, and splits in two at its dash |
| Dates.SixDigitQuarterParse | etl_ontology/etl/transform.py:108-111 | under the quarter format alone, a six-digit year followed by " Q1" (e.g. "123456 Q1") normalises to the year, a dash and "01" |
| Dates.TryFormatFree | etl_ontology/etl/transform.py:105-107 | the `YYYY MMM` format runs dateutil's `parse` |
| Dates.YearPassRejectsSpaced | etl_ontology/etl/transform.py:97-98 | digit-led text with a space and no dot is not a float, so the year format moves on |
| Dates.SixDigitUnemploymentParse | etl_ontology/config/ontology_config.py:202-205 | under `unemployment`'s formats (YYYY, YYYY MMM, YYYY Q), "123456 Q1" normalises to "123456-01" whenever dateutil rejects it |
| Dates.SixDigitQuarterNode | etl_ontology/etl/transform.py:217-222 | that text becomes an AcademicYear node whenever the watermark is at most the year, so the nine-character branch is reachable |
| Dates.NineCharacterNode | etl_ontology/etl/transform.py:201-222 | nine characters whose leading year reaches the watermark select the academic-year node |
| Dates.AcademicYearNodeOfPair | etl_ontology/etl/transform.py:217-222 | text that splits in two at its dash yields an academic-year node under the AcademicYear URI |
| Dates.AddDescribedNode | etl_ontology/etl/transform.py:205-216 | a year, month or day node adds its type triple and its value triple, and its URI is returned |
| Dates.AddAcademicYearNode | etl_ontology/etl/transform.py:217-222 | an academic-year node adds its type, start and end triples when the text splits in two; otherwise nothing is added and None is returned |
| Dates.ShapedNodeClass | etl_ontology/etl/transform.py:205-224 | the node chosen by length carries the class of that length and its type triple; other lengths give nothing |
| Dates.MapDateToOntology | etl_ontology/etl/transform.py:175-228 | the graph grows by exactly the node's triples and the node's URI is returned; when no node applies, nothing is added and None is returned |
| Locations.CleanLocationName | etl_ontology/etl/transform.py:248 | one trailing " ua" is dropped and nothing else changes |
| Locations.CleanLocationNameRemovesSuffix | etl_ontology/etl/transform.py:248 | appending " ua" and cleaning gives the name back |
| Locations.CleanLocationNameOnce | etl_ontology/etl/transform.py:248 | only one suffix goes per call |
| Locations.ValidateLocationNone | etl_ontology/etl/transform.py:268-271 | validation gives None exactly when no reference entry is a case-insensitive substring of the name |
| Locations.ValidateLocationFirst | etl_ontology/etl/transform.py:268-270 | the first matching reference entry is returned |
| Locations.ValidateLocationFromReference | etl_ontology/etl/transform.py:268-270 | what validation returns is a matching entry of the reference list, as written there |
| Locations.ValidateLocationIgnoresCase | etl_ontology/etl/transform.py:269 | the candidate's case does not matter |
| Locations.ReplaceDisallowed | etl_ontology/etl/transform.py:313 | each character outside `[\w\-]` becomes `_`, one for one |
| Locations.SanitizeUri | etl_ontology/etl/transform.py:294-317 | fails exactly on empty text (IndexError); otherwise the result is URI-safe, with a `_` prefix added exactly when the text starts with a digit |
| Locations.SanitizeUriPositions | etl_ontology/etl/transform.py:313-316 | each input character lands at its own position, shifted by the prefix, as itself or as `_` |
| Locations.SanitizeUriKeepsSafe | etl_ontology/etl/transform.py:313-317 | URI-safe text is left as it is |
| Locations.SanitizeUriIdempotent | etl_ontology/etl/transform.py:313-317 | sanitising twice is sanitising once |
| Locations.SanitizeUriExample | etl_ontology/etl/transform.py:313-317 | "3 Main St!" becomes "_3_Main_St_" |
| Transform.Summary.constructor | etl_ontology/etl/transform.py:459-465 | a new summary has zero counts and empty collections |
| Transform.Summary.AddError | etl_ontology/etl/transform.py:362 | appends one error line and changes nothing else |
| Transform.Summary.SkipDate | etl_ontology/etl/transform.py:385 | adds one raw date to the skipped set and changes nothing else |
| Transform.ErrorsOf | etl_ontology/etl/transform.py:362-409 | a failure writes at most one error line, and none exactly when it is a skipped date |
| Transform.SkippedOf | etl_ontology/etl/transform.py:385-391 | only a skipped-date failure adds to the skipped set |
| Transform.DateStep | etl_ontology/etl/transform.py:376-392 | a failing date adds nothing, and is either its raw value skipped or an exception caught by the row mapper |
| Transform.DateStepCases | etl_ontology/etl/transform.py:376-392 | every outcome of the date branch: an exception from `parse_date` or from `int` of the year is an error; unparsed text, a year before the watermark and text without a time node skip the raw value; otherwise the node's triples and the link to it are added and the row goes on |
| Transform.RowDateField | etl_ontology/etl/transform.py:356-392 | once the fields before it pass and its cell is accepted, the date field's triples are in the row's, and its skip or error is the row's failure |
| Transform.ParsedDateStep | etl_ontology/etl/transform.py:378-392 | the same, once `parse_date` has answered |
| Transform.LinkDateStep | etl_ontology/etl/transform.py:379-389 | the same, for a parsed text |
| Transform.RelationStep | etl_ontology/etl/transform.py:393-398 | the relationship branch fails exactly on an empty value (an IndexError caught by the row mapper) and then adds nothing |
| Transform.StripBraces | etl_ontology/etl/transform.py:346 | removing braces leaves no brace and never lengthens the text |
| Transform.FieldsStepAt | etl_ontology/etl/transform.py:356-405 | the field loop from field `i` runs field `i` and stops on its failure, or goes on to the rest |
| Transform.FieldStepFailure | etl_ontology/etl/transform.py:357-392 | a failing field adds nothing of its own, had a non-NaN cell, names that cell and field in its message, and only the `date` field skips dates |
| Transform.FieldsStepPasses | etl_ontology/etl/transform.py:356-407 | a row's fields pass exactly when every field passes on its own |
| Transform.FieldsStepKeeps | etl_ontology/etl/transform.py:356-405 | every field up to the first failure keeps its triples, and the first failure is the row's failure |
| Transform.FieldsStepOrigin | etl_ontology/etl/transform.py:356-405 | every triple of the row comes from a field whose predecessors all passed |
| Transform.RowStepTyped | etl_ontology/etl/transform.py:352-353 | the type triple is added before the fields, so a failing row keeps it |
| Transform.ValidatedNeverUnmapped | etl_ontology/etl/transform.py:360-371 | when the valid values are all keys of the value map, "No mapping found" cannot happen |
| Transform.RegistryNeverUnmapped | etl_ontology/etl/transform.py:366-371 | no source of the registry ever reports "No mapping found" |
| Transform.UnknownQuarterIsError | etl_ontology/etl/transform.py:377-409 | a quarter token that is not Q1-Q4 in any case becomes an error line naming the token, not a skipped date |
| Transform.DateStepRaised | etl_ontology/etl/transform.py:377-409 | an exception out of parse_date is caught by the row mapper and recorded as its message |
| Transform.EntityUriKeyed | etl_ontology/etl/transform.py:345-350 | a row builds its URI exactly when its `transaction_id` column matches the pattern's placeholder; otherwise KeyError names the placeholder |
| Transform.RegistryEntityUri | etl_ontology/etl/transform.py:343-350 | only `price_paid` rows with a `transaction_id` column, and other sources' rows without one, get an entity URI |
| Transform.PlaceholderKeyed | etl_ontology/etl/transform.py:345-350 | with a pattern keyed by transaction id or by unique id, a row gets a URI exactly when it has the matching column; otherwise the KeyError names the pattern's key |
| Transform.FreshIdsGiveDistinctUris | etl_ontology/etl/transform.py:349-350 | distinct fresh identifiers give distinct entity URIs |
| Transform.StripBracesAppend | etl_ontology/etl/transform.py:346 | brace removal distributes over concatenation |
| Transform.StripBracesKeeps | etl_ontology/etl/transform.py:346 | text without braces is kept |
| Transform.BracedIdIsBareId | etl_ontology/etl/transform.py:346 | "{X}" keys the same entity as "X" |
| Transform.MapDateField | etl_ontology/etl/transform.py:376-392 | the graph, the success flag, the error lines and the skipped dates change exactly as the date step says; counts are untouched |
| Transform.MapParsedDate | etl_ontology/etl/transform.py:378-392 | the same, once `parse_date` has answered |
| Transform.LinkDate | etl_ontology/etl/transform.py:379-389 | the same, for a parsed text |
| Transform.LinkTimeNode | etl_ontology/etl/transform.py:381-386 | the time node and the entity's link to it are added, or the raw value is skipped and nothing is added |
| Transform.MapField | etl_ontology/etl/transform.py:357-405 | one field in place, as the field step says |
| Transform.TransformRowToRdf | etl_ontology/etl/transform.py:319-410 | one row in place: graph, result, error lines and skipped dates as the row step says |
| Transform.MapFields | etl_ontology/etl/transform.py:356-407 | the field loop in place, stopping at the first failure |
| Transform.FieldsStepChain | etl_ontology/etl/transform.py:356-407 | the field loop's outcome is the fields' own outcomes taken in order up to the first failure |
| Transform.MapFieldSteps | etl_ontology/etl/transform.py:356-407 | the field loop in place, stated on the fields' own outcomes: the graph and the summary grow by the chained outcome |
| Transform.MapFieldAt | etl_ontology/etl/transform.py:357-405 | one pass of the field loop adds that field's triples and records its failure, if any |
| Pipeline.Directory.constructor | etl_ontology/etl/transform.py:64-65 | a directory holds the files it is given |
| Pipeline.ChunkFileNameMatches | etl_ontology/etl/transform.py:430-523 | every chunk file name matches the glob the merge uses |
| Pipeline.NatTextInjective | etl_ontology/etl/transform.py:430 | `str(n)` is one-to-one |
| Pipeline.ChunkFileNameInjective | etl_ontology/etl/transform.py:430 | distinct chunks are saved under distinct names |
| Pipeline.LexLessAsymmetric | etl_ontology/etl/transform.py:523 | the name order is asymmetric |
| Pipeline.LexLessCommonPrefix | etl_ontology/etl/transform.py:523 | a common prefix does not change the order |
| Pipeline.ChunkNumbers | etl_ontology/etl/transform.py:430 | chunks 2 and 10 print as "2" and "10" |
| Pipeline.ChunkTenBeforeTwo | etl_ontology/etl/transform.py:430-523 | chunk 10's file sorts before chunk 2's |
| Pipeline.SortedListingTenBeforeTwo | etl_ontology/etl/transform.py:523-528 | in the sorted listing, chunk 10 is merged before chunk 2 |
| Pipeline.Relocated | etl_ontology/etl/transform.py:481-488 | location filtering never adds rows |
| Pipeline.RelocatedErr | etl_ontology/etl/transform.py:482 | filtering fails exactly when some location cell is NaN, with the AttributeError's message |
| Pipeline.RelocatedKeeps | etl_ontology/etl/transform.py:481-488 | with no NaN cell, the survivors are exactly the rows whose cleaned location validates, in their order, each with its other cells and the reference entry as its location |
| Pipeline.RelocatedCons | etl_ontology/etl/transform.py:481-488 | the first row survives, relocated, exactly when its location validates, followed by the relocated rest |
| Pipeline.RelocatedFromReference | etl_ontology/etl/transform.py:482-488 | every surviving row's location is an entry of the reference list |
| Pipeline.RelocatedNoneValid | etl_ontology/etl/transform.py:483-486 | a chunk with no valid location reaches the mapper with no rows |
| Pipeline.RowSteps | etl_ontology/etl/transform.py:492-495 | one step per row |
| Pipeline.RowStepsAt | etl_ontology/etl/transform.py:492-495 | row `i` is mapped with the fresh identifier of attempt `first + i` |
| Pipeline.TallyBound | etl_ontology/etl/transform.py:492-495 | mapped rows plus error lines never exceed the rows |
| Pipeline.TallyOfStep | etl_ontology/etl/transform.py:492-495 | one more row adds its step to the tally |
| Pipeline.TransformCountedRow | etl_ontology/etl/transform.py:493-495 | one attempt is counted, the row is mapped, and a success is counted |
| Pipeline.TransformRows | etl_ontology/etl/transform.py:490-495 | the chunk graph and the summary grow by the rows' tally, and the total by the number of rows |
| Pipeline.TransformRowAt | etl_ontology/etl/transform.py:493-495 | one pass of the row loop counts the row's own outcome into the graph and the summary |
| Pipeline.LoadRunStep | etl_ontology/etl/transform.py:474-498 | the chunk loop is one chunk after another |
| Pipeline.LoadRunBound | etl_ontology/etl/transform.py:459-501 | mapped rows plus error lines never exceed total rows |
| Pipeline.LoadRunAbortStays | etl_ontology/etl/transform.py:474-488 | once a chunk raises, later chunks change nothing |
| Pipeline.LoadRunFileOrigin | etl_ontology/etl/transform.py:474-497 | every file written is the file of a chunk that kept rows |
| Pipeline.SkippedChunkWritesNothing | etl_ontology/etl/transform.py:475-486 | an empty chunk, a chunk with no valid location, or a chunk that raises saves no file |
| Pipeline.PlusAddRows | etl_ontology/etl/transform.py:490-497 | mapping a chunk's rows adds their tally and the chunk's file to what is already there |
| Pipeline.PlusAddTally | etl_ontology/etl/transform.py:490-497 | adding a tally and a chunk file on top of earlier runs is the same as adding them to the combined run |
| Pipeline.TransformChunk | etl_ontology/etl/transform.py:474-498 | one chunk in place: the summary and the directory move as the chunk run says, or the exception is returned |
| Pipeline.MapChunkRows | etl_ontology/etl/transform.py:490-497 | a chunk's rows are mapped into a fresh graph, which is saved under the chunk's name |
| Pipeline.TransformChunks | etl_ontology/etl/transform.py:474-498 | the chunk loop in place: the summary and the directory grow by the run, and an exception stops it |
| Pipeline.LoadAndTransformData | etl_ontology/etl/transform.py:433-501 | a fresh summary; a configured source without a mapping gets one error line and nothing else; otherwise summary and files are the run's, and `invalid_locations` stays empty |
| Pipeline.UnionOfMembers | etl_ontology/etl/transform.py:527-528 | a triple is merged exactly when some listed file holds it |
| Pipeline.UnionOfOrderFree | etl_ontology/etl/transform.py:523-528 | listings of the same files give the same merged graph |
| Pipeline.UnionOfStep | etl_ontology/etl/transform.py:527-528 | one more file adds its triples |
| Pipeline.MergeChunks | etl_ontology/etl/transform.py:521-528 | the merged graph is the union of the listed chunk files |
| Pipeline.RemoveChunks | etl_ontology/etl/transform.py:538-539 | exactly the listed files are removed and the others keep their contents |
| Pipeline.CombineTtlFiles | etl_ontology/etl/transform.py:503-539 | an empty listing raises the progress bar's ValueError and changes nothing; otherwise the output file holds the union of the chunk files, the chunk files are gone, and the other files are untouched |
| Ontology.UnionMapMembers | etl_ontology/ontology/create_populate_ontology.py:74-95 | a triple is written by a declaration loop exactly when one of its declarations writes it |
| Ontology.UnionMapStep | etl_ontology/ontology/create_populate_ontology.py:74-95 | one more declaration adds its triples |
| Ontology.InClassPart | etl_ontology/ontology/create_populate_ontology.py:75-77 | the class loop writes types and labels, and types only declared classes as `owl:Class` |
| Ontology.SubclassTriple | etl_ontology/ontology/create_populate_ontology.py:81-83 | a subclass declaration writes its type, its parent link and its label |
| Ontology.InSubclassPart | etl_ontology/ontology/create_populate_ontology.py:80-83 | the subclass loop types only declared subclasses, and every parent it links is declared |
| Ontology.ObjectPropertyTriple | etl_ontology/ontology/create_populate_ontology.py:87-90 | a property declaration writes its type, domain, range and label |
| Ontology.InObjectPropertyPart | etl_ontology/ontology/create_populate_ontology.py:86-90 | every domain and range the property loop writes is a declared class |
| Ontology.InDataPropertyPart | etl_ontology/ontology/create_populate_ontology.py:93-95 | the data-property loop writes only `owl:DatatypeProperty` types and labels |
| Ontology.ObjectPropertyEndsDeclared | etl_ontology/config/ontology_config.py:94-100 | every object property's domain and range is a declared class |
| Ontology.SkeletonClasses | etl_ontology/ontology/create_populate_ontology.py:74-95 | a URI is declared `owl:Class` exactly when the registry lists it as a class or subclass |
| Ontology.TimeNodeClasses | etl_ontology/ontology/create_populate_ontology.py:74-83 | Year, YearMonth and FullDate are declared classes; AcademicYear, which the date mapper can produce, is not |
| Ontology.AcademicYearNotRegistered | etl_ontology/config/ontology_config.py:74-90 | AcademicYear is neither a class nor a subclass of the registry |
| Ontology.SkeletonParentsDeclared | etl_ontology/ontology/create_populate_ontology.py:80-83 | every `rdfs:subClassOf` target is a declared class |
| Ontology.SkeletonEndsDeclared | etl_ontology/ontology/create_populate_ontology.py:86-90 | every `rdfs:domain` and `rdfs:range` target is a declared class |
| Ontology.SkeletonDataProperties | etl_ontology/ontology/create_populate_ontology.py:93-95 | each data property is typed and labelled with its dictionary key |
| Ontology.ParsedUnionMembers | etl_ontology/ontology/create_populate_ontology.py:137-142 | a triple is added exactly when a file that parses holds it; files that fail to parse add nothing |
| Ontology.ParsedUnionStep | etl_ontology/ontology/create_populate_ontology.py:137-142 | one more file adds its triples if it parses |
| Ontology.ReadBack | etl_ontology/ontology/create_populate_ontology.py:132 | one Turtle file per name listed |
| Ontology.ReadBackUnion | etl_ontology/ontology/create_populate_ontology.py:132-142 | populating from the files the transform stage wrote adds exactly their merged graph |
| Ontology.OntologyCreator.constructor | etl_ontology/ontology/create_populate_ontology.py:45-56 | a new creator has an empty graph |
| Ontology.OntologyCreator.CreateOntology | etl_ontology/ontology/create_populate_ontology.py:61-99 | the skeleton is added to whatever the graph holds |
| Ontology.OntologyCreator.AddClasses | etl_ontology/ontology/create_populate_ontology.py:74-77 | the class loop adds exactly the classes' triples |
| Ontology.OntologyCreator.AddSubclasses | etl_ontology/ontology/create_populate_ontology.py:79-83 | the subclass loop adds exactly the subclasses' triples |
| Ontology.OntologyCreator.AddObjectProperties | etl_ontology/ontology/create_populate_ontology.py:85-90 | the object-property loop adds exactly those properties' triples |
| Ontology.OntologyCreator.AddDataProperties | etl_ontology/ontology/create_populate_ontology.py:92-95 | the data-property loop adds exactly those properties' triples |
| Ontology.OntologyCreator.PopulateOntology | etl_ontology/ontology/create_populate_ontology.py:115-146 | a missing directory changes nothing; otherwise the graph grows by the triples of the files that parse |

## Left out

- Printing, progress bars, namespace prefix binding and Turtle serialisation
  are I/O. Files are modelled by the triple sets they hold, and saving then
  parsing a graph is taken to give it back. The one progress-bar failure
  that changes the outcome, an empty chunk listing in `combine_ttl_files`,
  is modelled.
- Reading the processed CSV in chunks (`get_chunked_data`), pandas' type
  inference and the `data_loader` configuration are I/O. The chunks, the
  reference list of valid locations and the directory listings are
  parameters. Cells are modelled by their text, so a numeric cell compared
  against `valid_values` or a value map is compared as its printed text.
- Pipeline.LoadAndTransformData: a source the data loader does not know
  makes `get_file_paths` raise ValueError (`data_loader.py:158-159`) before
  the mapping check; this is not modelled, because the data loader's
  configuration is outside the model. The error
  line is the path of a configured source without a mapping.
- `uuid4` is a parameter `ids: nat -> string`, indexed by the number of rows
  attempted so far. Uniqueness is proved only for distinct identifiers
  (`Transform.FreshIdsGiveDistinctUris`), not for the random generator.
- `datetime.strptime` and dateutil's `parse` are a `DateLibrary` parameter
  returning a valid date or None. Their internal format rules are not
  modelled. `%Y` is printed without zero padding. dateutil's `parse` can
  also raise OverflowError, which is not a ValueError and so escapes
  `parse_date`; the model does not capture that exception.
- PyStr.ParseFloat: `float()` is modelled for a sign, digits with at most
  one dot, "inf", "infinity" and "nan", and overflows to infinity at the
  exact bound (2^54 - 1) * 2^970. Below it the value is the decimal text
  truncated exactly. Python first rounds to the nearest double, so
  integers above 2^53 that a double cannot hold, and fractions within
  rounding distance of the next integer ("2021.99999999999999999" gives
  2022 in Python), differ. Exponent forms and digit-group underscores are
  left out.
- PyStr.ParseFloatOfDigits: states the exact value of the digits. Python's
  `float()` rounds to the nearest double, so an integer above 2^53 that a
  double cannot hold reads differently ("9007199254740993" gives
  9007199254740992).
- PyStr.ParseFloatOfDecimal: states truncation of the exact decimal to its
  whole part. Python rounds to the nearest double first, so a fraction
  close enough to 1 gives the next integer ("2021.99999999999999999"
  gives 2022), and a whole part above 2^53 can change as under
  PyStr.ParseFloatOfDigits.
- PyStr.IntTextAsFloat: holds of the model's exact `float()`; in Python it
  fails for integers above 2^53 that a double cannot hold
  ("9007199254740993" comes back as 9007199254740992).
- PyStr.DecimalTextAsFloat: holds of the model's exact `float()`; in Python
  a fraction close enough to 1 rounds the value up to the next integer.
- Dates.YearFormatCoercesFloat: `int(float(s))` is taken as exact truncation
  of the text, not of the nearest double, for the reason given under
  PyStr.ParseFloat.
- Dates.YearFormatIdempotent: proved for years below the overflow bound on
  the exact `float()`. In Python, `str(int(float(t)))` can change an integer
  text above 2^53, so idempotence there holds only up to that rounding.
- `lower`, `upper`, `isdigit` and `\w` are ASCII only in the model;
  `isspace`, as used by `strip` and `split`, is Python's full whitespace
  set.
- PyStr.IntValueErrorMessage: always quotes the text with `'`. Python
  writes it with `repr`, which switches to `"` when the text holds a `'`
  and no `"`, and escapes backslashes and unprintable characters.
- Dates.QuarterPass: the KeyError text is the token between `'` quotes.
  Python prints `repr` of the key, so a token holding a `'` is shown
  between `"` quotes, as under PyStr.IntValueErrorMessage.
- Transform.FormatUri: the KeyError text for a missing placeholder is the
  key between `'` quotes; Python prints `repr` of the key, as under
  PyStr.IntValueErrorMessage.
- PyStr.ParseIntExactly: `int()` is modelled for ASCII digits. Python also
  accepts the decimal digits of other scripts (any Unicode digit of
  category Nd), which the model rejects.
- Transform.LiteralStep: a typed literal holds the cell text as written.
  rdflib's `Literal(value, datatype=...)` normalises the lexical form of
  some datatypes (`Literal("01", datatype=XSD.integer)` holds "1"), so the
  graph can hold a different term than the one modelled. The same holds
  for the typed literals of the time nodes built by
  `Dates.MapDateToOntology`.
- PyStr.Strip: states the trimmed ends and the length bound rather than
  the full slice characterisation.
- PyStr.Words: the function's own contract gives only the shape of each
  word. That the words are the maximal non-space runs, in order, is
  stated by `PyStr.LayoutOfWords` and `PyStr.WordsOfLayout`.
- PyStr.Split: the function's own contract pins the first part. That the
  parts joined with the separator give the text back, and that joined
  separator-free parts split back into themselves, is stated by
  `PyStr.SplitJoin` and `PyStr.SplitOfJoin`.
- Pipeline.Relocated: the function's own contract says only that no rows
  are added. Which rows survive, their order, their cells and when the
  filter fails are stated by `Pipeline.RelocatedKeeps`,
  `Pipeline.RelocatedCons` and `Pipeline.RelocatedErr`.
- `main` in `transform.py` (`transform.py:541-582`) is not a member of the
  model. It returns early when `find_common_earliest_year` gives None, and
  otherwise runs `load_and_transform_data` and then `combine_ttl_files` for
  each source and prints the summary, so a source that wrote no chunk file
  ends the run with the ValueError of `Pipeline.CombineTtlFiles`. `main` in
  `create_populate_ontology.py` only sequences the creator's operations, and
  `save_ontology` is serialisation.
- Ontology.OntologyCreator.PopulateOntology: a file that fails to parse
  adds nothing. The model does not capture triples that rdflib's parser may
  add before it raises.
- The summary is lost when an exception leaves `load_and_transform_data`.
  The model returns the summary as it stood, with the exception in
  `aborted`.
- `OntologyCreator.__init__` exits the process when the configuration
  cannot be loaded; the registry is a constant here, so that path does not
  arise.
