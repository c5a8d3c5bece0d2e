/**
  The per-source driver of the transform stage: chunks of rows are filtered
  by location, mapped row by row into one graph per chunk, and each chunk
  graph is saved as an intermediate Turtle file; the chunk files are then
  merged into the source's output graph and removed.  Files are modelled by
  the triple sets they hold, so saving and reading back a graph is the
  identity.
*/
module Pipeline {
  import opened PyStr
  import opened Rdf
  import opened Registry
  import opened Locations
  import opened Dates
  import opened Transform

  /** A directory of Turtle files: file name to the triples it holds. */
  class Directory {
    var files: map<string, set<Triple>>

    constructor (files0: map<string, set<Triple>>)
      ensures files == files0
    {
      files := files0;
    }
  }

  // ---------------------------------------------------------------------------
  // Chunk file names

  const ChunkPrefix := "transformed_data_chunk_"
  const TurtleSuffix := ".ttl"

  /** The file `save_graph_to_disk` writes for chunk `n`. */
  function ChunkFileName(n: nat): string {
    ChunkPrefix + NatText(n) + TurtleSuffix
  }

  /** The names the glob `transformed_data_chunk_*.ttl` matches. */
  predicate IsChunkFile(name: string) {
    |ChunkPrefix| + |TurtleSuffix| <= |name| && name[..|ChunkPrefix|] == ChunkPrefix && EndsWith(name, TurtleSuffix)
  }

  lemma ChunkFileNameMatches(n: nat)
    ensures IsChunkFile(ChunkFileName(n))
  {
    var name := ChunkFileName(n);
    assert name[..|ChunkPrefix|] == ChunkPrefix;
    assert name[|name| - |TurtleSuffix|..] == TurtleSuffix;
  }

  /** `str(n)` is one-to-one, since reading it back gives `n`. */
  lemma NatTextInjective(a: nat, b: nat)
    requires NatText(a) == NatText(b)
    ensures a == b
  {
    NatTextValue(a);
    NatTextValue(b);
  }

  /** Distinct chunks are saved under distinct names. */
  lemma ChunkFileNameInjective(a: nat, b: nat)
    requires ChunkFileName(a) == ChunkFileName(b)
    ensures a == b
  {
    var na := ChunkFileName(a);
    var nb := ChunkFileName(b);
    assert na[|ChunkPrefix|..|na| - |TurtleSuffix|] == NatText(a);
    assert nb[|ChunkPrefix|..|nb| - |TurtleSuffix|] == NatText(b);
    NatTextInjective(a, b);
  }

  // ---------------------------------------------------------------------------
  // Lexicographic order of file names

  /** Python's `<` on strings: code point by code point, a proper prefix first. */
  predicate LexLess(a: string, b: string)
    decreases |a|
  {
    if a == [] then b != []
    else b != [] && (a[0] < b[0] || (a[0] == b[0] && LexLess(a[1..], b[1..])))
  }

  lemma {:induction false} LexLessAsymmetric(a: string, b: string)
    requires LexLess(a, b)
    ensures !LexLess(b, a)
    decreases |a|
  {
    if a != [] && a[0] == b[0] {
      LexLessAsymmetric(a[1..], b[1..]);
    }
  }

  /** A common prefix does not change the order. */
  lemma {:induction false} LexLessCommonPrefix(p: string, a: string, b: string)
    requires LexLess(a, b)
    ensures LexLess(p + a, p + b)
  {
    if p == [] {
      assert p + a == a && p + b == b;
    } else {
      assert (p + a)[1..] == p[1..] + a;
      assert (p + b)[1..] == p[1..] + b;
      LexLessCommonPrefix(p[1..], a, b);
    }
  }

  lemma ChunkNumbers()
    ensures NatText(2) == "2" && NatText(10) == "10"
  {
  }

  /** The merge order is lexicographic: chunk 10's file sorts before chunk 2's. */
  lemma ChunkTenBeforeTwo()
    ensures LexLess(ChunkFileName(10), ChunkFileName(2))
  {
    ChunkNumbers();
    assert LexLess("10" + TurtleSuffix, "2" + TurtleSuffix);
    LexLessCommonPrefix(ChunkPrefix, "10" + TurtleSuffix, "2" + TurtleSuffix);
    assert ChunkFileName(10) == ChunkPrefix + ("10" + TurtleSuffix);
    assert ChunkFileName(2) == ChunkPrefix + ("2" + TurtleSuffix);
  }

  /** A sorted listing strictly increases. */
  predicate SortedNames(listing: seq<string>) {
    forall i, j :: 0 <= i < j < |listing| ==> LexLess(listing[i], listing[j])
  }

  /** In the sorted listing the merge walks, chunk 10 comes before chunk 2. */
  lemma SortedListingTenBeforeTwo(listing: seq<string>, i: nat, j: nat)
    requires SortedNames(listing)
    requires i < |listing| && j < |listing|
    requires listing[i] == ChunkFileName(10) && listing[j] == ChunkFileName(2)
    ensures i < j
  {
    ChunkTenBeforeTwo();
    if j < i {
      LexLessAsymmetric(ChunkFileName(10), ChunkFileName(2));
    }
  }

  // ---------------------------------------------------------------------------
  // Location filtering of a chunk

  const LocationColumn := "location_name"

  /** `str(e)` for the AttributeError `clean_location_name` raises on a NaN cell. */
  const NanLocationError := "'float' object has no attribute 'endswith'"

  /** `chunk.empty`: no rows, or no columns. */
  predicate ChunkEmpty(chunk: seq<Row>) {
    forall i :: 0 <= i < |chunk| ==> chunk[i] == map[]
  }

  /** Clean and validate each row's location, drop the rows with no valid
      location, and put the reference entry in the location column; the first
      NaN location raises. */
  function Relocated(rows: seq<Row>, reference: seq<string>): (r: Result<seq<Row>>)
    requires forall i :: 0 <= i < |rows| ==> LocationColumn in rows[i]
    ensures r.Ok? ==> |r.value| <= |rows|
  {
    if rows == [] then Ok([])
    else
      var cell := rows[0][LocationColumn];
      if cell.None? then Err(NanLocationError)
      else
        match Relocated(rows[1..], reference)
        case Err(e) => Err(e)
        case Ok(rest) =>
          match LocationEntry(rows[0], reference)
          case None => Ok(rest)
          case Some(entry) => Ok([rows[0][LocationColumn := Some(entry)]] + rest)
  }

  /** The rows of a chunk that reach the row mapper: an empty chunk gives none;
      for a source with a location field, a missing location column is a
      KeyError and the rows are relocated. */
  function ChunkRows(chunk: seq<Row>, hasLocation: bool, reference: seq<string>): Result<seq<Row>> {
    if ChunkEmpty(chunk) then Ok([])
    else if !hasLocation then Ok(chunk)
    else if exists i :: 0 <= i < |chunk| && LocationColumn !in chunk[i] then Err("'" + LocationColumn + "'")
    else Relocated(chunk, reference)
  }

  /** Every row that survives relocation carries a reference entry that its
      cleaned original location matches. */
  lemma {:induction false} RelocatedFromReference(rows: seq<Row>, reference: seq<string>, k: nat)
    requires forall i :: 0 <= i < |rows| ==> LocationColumn in rows[i]
    requires Relocated(rows, reference).Ok? && k < |Relocated(rows, reference).value|
    ensures var row := Relocated(rows, reference).value[k];
      LocationColumn in row && row[LocationColumn].Some? && row[LocationColumn].value in reference
  {
    var cell := rows[0][LocationColumn];
    var rest := Relocated(rows[1..], reference);
    var entry := ValidateLocation(CleanLocationName(cell.value), reference);
    if entry.Some? {
      ValidateLocationFromReference(CleanLocationName(cell.value), reference);
      if k > 0 {
        RelocatedFromReference(rows[1..], reference, k - 1);
      }
    } else {
      RelocatedFromReference(rows[1..], reference, k);
    }
  }

  /** The reference entry a cleaned location cell validates to, if any. */
  function LocationEntry(row: Row, reference: seq<string>): Option<string> {
    if LocationColumn in row && row[LocationColumn].Some? then
      ValidateLocation(CleanLocationName(row[LocationColumn].value), reference)
    else None
  }

  /** Relocation fails exactly when some location cell is NaN, and then with
      the AttributeError's message. */
  lemma {:induction false} RelocatedErr(rows: seq<Row>, reference: seq<string>)
    requires forall i :: 0 <= i < |rows| ==> LocationColumn in rows[i]
    ensures Relocated(rows, reference).Err? <==> exists i :: 0 <= i < |rows| && rows[i][LocationColumn].None?
    ensures Relocated(rows, reference).Err? ==> Relocated(rows, reference).error == NanLocationError
  {
    if rows != [] {
      RelocatedErr(rows[1..], reference);
      if exists i :: 1 <= i < |rows| && rows[i][LocationColumn].None? {
        var i :| 1 <= i < |rows| && rows[i][LocationColumn].None?;
        assert rows[1..][i - 1] == rows[i];
      }
      if exists i :: 0 <= i < |rows[1..]| && rows[1..][i][LocationColumn].None? {
        var i :| 0 <= i < |rows[1..]| && rows[1..][i][LocationColumn].None?;
        assert rows[1..][i] == rows[i + 1];
      }
    }
  }

  /** Every location cell is present and not NaN. */
  predicate LocationsPresent(rows: seq<Row>) {
    forall i :: 0 <= i < |rows| ==> LocationColumn in rows[i] && rows[i][LocationColumn].Some?
  }

  /** Each `out[k]` is row `kept[k]`, which has an entry, with that entry as
      its location. */
  ghost predicate KeptRows(rows: seq<Row>, entry: Row -> Option<string>, out: seq<Row>, kept: seq<nat>) {
    && |kept| == |out|
    && forall k :: 0 <= k < |kept| ==>
         && kept[k] < |rows|
         && entry(rows[kept[k]]).Some?
         && out[k] == rows[kept[k]][LocationColumn := entry(rows[kept[k]])]
  }

  predicate Increasing(kept: seq<nat>) {
    forall k, l :: 0 <= k < l < |kept| ==> kept[k] < kept[l]
  }

  /** Every row that has an entry is among `kept`. */
  ghost predicate KeptAll(rows: seq<Row>, entry: Row -> Option<string>, kept: seq<nat>) {
    forall i :: 0 <= i < |rows| && entry(rows[i]).Some? ==> i in kept
  }

  /** `out` is `rows` with exactly the rows that have an entry kept, in their
      order, each taking its entry as its location; `kept` lists the indices
      of the surviving rows. */
  ghost predicate KeepsEntries(rows: seq<Row>, entry: Row -> Option<string>, out: seq<Row>, kept: seq<nat>) {
    KeptRows(rows, entry, out, kept) && Increasing(kept) && KeptAll(rows, entry, kept)
  }

  /** The same, with each row's entry the reference entry its cleaned
      location validates to. */
  ghost predicate KeepsValidated(rows: seq<Row>, reference: seq<string>, out: seq<Row>, kept: seq<nat>) {
    KeepsEntries(rows, row => LocationEntry(row, reference), out, kept)
  }

  /** Relocating a non-empty chunk: the first row, if its location validates,
      then the relocated rest. */
  lemma RelocatedCons(rows: seq<Row>, reference: seq<string>)
    requires rows != [] && LocationsPresent(rows)
    requires Relocated(rows[1..], reference).Ok?
    ensures Relocated(rows, reference).Ok?
    ensures Relocated(rows, reference).value ==
      (if LocationEntry(rows[0], reference).Some? then [rows[0][LocationColumn := LocationEntry(rows[0], reference)]] else [])
      + Relocated(rows[1..], reference).value
  {
  }

  /** The indices `kept` moved one place on, past a new first row. */
  function Shifted(kept: seq<nat>): (r: seq<nat>)
    ensures |r| == |kept| && forall k :: 0 <= k < |kept| ==> r[k] == kept[k] + 1
  {
    seq(|kept|, k requires 0 <= k < |kept| => kept[k] + 1)
  }

  lemma ShiftedMember(kept: seq<nat>, i: nat)
    requires i >= 1 && i - 1 in kept
    ensures i in Shifted(kept)
  {
    var k :| 0 <= k < |kept| && kept[k] == i - 1;
    assert Shifted(kept)[k] == i;
  }

  /** Shifted indices point at the same rows past a new first row. */
  lemma KeptRowsShift(rows: seq<Row>, entry: Row -> Option<string>, out: seq<Row>, kept: seq<nat>)
    requires rows != [] && KeptRows(rows[1..], entry, out, kept)
    ensures KeptRows(rows, entry, out, Shifted(kept))
  {
    forall k | 0 <= k < |kept|
      ensures rows[Shifted(kept)[k]] == rows[1..][kept[k]]
    {
    }
  }

  /** A first row that has an entry goes in front. */
  lemma KeptRowsFront(rows: seq<Row>, entry: Row -> Option<string>, out: seq<Row>, kept: seq<nat>)
    requires rows != [] && entry(rows[0]).Some? && KeptRows(rows, entry, out, kept)
    ensures KeptRows(rows, entry, [rows[0][LocationColumn := entry(rows[0])]] + out, [0] + kept)
  {
    var out' := [rows[0][LocationColumn := entry(rows[0])]] + out;
    var kept' := [0] + kept;
    forall k | 1 <= k < |kept'|
      ensures kept'[k] < |rows| && entry(rows[kept'[k]]).Some?
      ensures out'[k] == rows[kept'[k]][LocationColumn := entry(rows[kept'[k]])]
    {
      assert out'[k] == out[k - 1] && kept'[k] == kept[k - 1];
    }
  }

  lemma IncreasingShift(kept: seq<nat>)
    requires Increasing(kept)
    ensures Increasing(Shifted(kept)) && Increasing([0] + Shifted(kept))
  {
    var front := [0] + Shifted(kept);
    assert forall k :: 1 <= k < |front| ==> front[k] == Shifted(kept)[k - 1];
  }

  /** Every later row that has an entry is among the shifted indices. */
  lemma KeptAllShift(rows: seq<Row>, entry: Row -> Option<string>, kept: seq<nat>)
    requires rows != [] && KeptAll(rows[1..], entry, kept)
    ensures forall i :: 1 <= i < |rows| && entry(rows[i]).Some? ==> i in Shifted(kept)
  {
    forall i | 1 <= i < |rows| && entry(rows[i]).Some?
      ensures i in Shifted(kept)
    {
      assert rows[1..][i - 1] == rows[i];
      ShiftedMember(kept, i);
    }
  }

  /** Past a new first row, the tail's survivors move one index on; the new
      row goes in front exactly when it has an entry. */
  lemma KeepsEntriesCons(rows: seq<Row>, entry: Row -> Option<string>, out: seq<Row>, kept: seq<nat>)
    requires rows != [] && KeepsEntries(rows[1..], entry, out, kept)
    ensures entry(rows[0]).Some? ==>
      KeepsEntries(rows, entry, [rows[0][LocationColumn := entry(rows[0])]] + out, [0] + Shifted(kept))
    ensures entry(rows[0]).None? ==> KeepsEntries(rows, entry, out, Shifted(kept))
  {
    KeptRowsShift(rows, entry, out, kept);
    IncreasingShift(kept);
    KeptAllShift(rows, entry, kept);
    if entry(rows[0]).Some? {
      KeptRowsFront(rows, entry, out, Shifted(kept));
    }
  }

  /** Relocation keeps, in their order, exactly the rows whose location
      validates; each keeps its other cells and takes the reference entry as
      its location. */
  lemma {:induction false} RelocatedKeeps(rows: seq<Row>, reference: seq<string>) returns (kept: seq<nat>)
    requires LocationsPresent(rows)
    ensures Relocated(rows, reference).Ok?
    ensures KeepsValidated(rows, reference, Relocated(rows, reference).value, kept)
  {
    if rows == [] {
      return [];
    }
    assert LocationsPresent(rows[1..]) by {
      assert forall i :: 0 <= i < |rows| - 1 ==> rows[1..][i] == rows[i + 1];
    }
    var tailKept := RelocatedKeeps(rows[1..], reference);
    var rest := Relocated(rows[1..], reference).value;
    var entry := row => LocationEntry(row, reference);
    RelocatedCons(rows, reference);
    KeepsEntriesCons(rows, entry, rest, tailKept);
    if LocationEntry(rows[0], reference).Some? {
      kept := [0] + Shifted(tailKept);
    } else {
      kept := Shifted(tailKept);
    }
  }


  /** A chunk none of whose locations validates reaches the mapper with no rows. */
  lemma {:induction false} RelocatedNoneValid(rows: seq<Row>, reference: seq<string>)
    requires forall i :: 0 <= i < |rows| ==> LocationColumn in rows[i] && rows[i][LocationColumn].Some?
    requires forall i :: 0 <= i < |rows| ==> ValidateLocation(CleanLocationName(rows[i][LocationColumn].value), reference).None?
    ensures Relocated(rows, reference) == Ok([])
  {
    if rows != [] {
      assert forall i :: 0 <= i < |rows| - 1 ==> rows[1..][i] == rows[i + 1];
      RelocatedNoneValid(rows[1..], reference);
    }
  }

  // ---------------------------------------------------------------------------
  // The rows of one chunk

  /** What mapping a run of rows contributes: the chunk graph's triples, the
      rows mapped, the error lines and the skipped dates. */
  datatype Tally = Tally(triples: set<Triple>, mapped: nat, errors: seq<string>, skipped: set<string>)

  /** A tally with one more row's step counted in. */
  function Count(t: Tally, step: Step): Tally {
    Tally(t.triples + step.added,
          t.mapped + (if step.failure.None? then 1 else 0),
          t.errors + ErrorsOf(step.failure),
          t.skipped + SkippedOf(step.failure))
  }

  /** The steps of a run of rows, in order. */
  function TallyOf(steps: seq<Step>): Tally
    decreases |steps|
  {
    if steps == [] then Tally({}, 0, [], {})
    else Count(TallyOf(steps[..|steps| - 1]), steps[|steps| - 1])
  }

  /** The mapper's step for each row; `first` is the number of rows attempted
      before them, which indexes the fresh identifiers. */
  function RowSteps(rows: seq<Row>, mapping: SourceMapping, watermark: int, lib: DateLibrary, ids: nat -> string, first: nat): (r: seq<Step>)
    ensures |r| == |rows|
  {
    seq(|rows|, i requires 0 <= i < |rows| => RowStep(rows[i], mapping, watermark, lib, ids(first + i)))
  }

  lemma RowStepsAt(rows: seq<Row>, mapping: SourceMapping, watermark: int, lib: DateLibrary, ids: nat -> string, first: nat, i: nat)
    requires i < |rows|
    ensures RowSteps(rows, mapping, watermark, lib, ids, first)[i] == RowStep(rows[i], mapping, watermark, lib, ids(first + i))
  {
  }

  /** The row loop of `load_and_transform_data` over `rows`. */
  function RowsTally(rows: seq<Row>, mapping: SourceMapping, watermark: int, lib: DateLibrary, ids: nat -> string, first: nat): Tally {
    TallyOf(RowSteps(rows, mapping, watermark, lib, ids, first))
  }

  /** Each row is mapped or fails, and a failing row writes at most one error
      line, so mapped rows and error lines together never outnumber the rows. */
  lemma {:induction false} TallyBound(steps: seq<Step>)
    ensures TallyOf(steps).mapped + |TallyOf(steps).errors| <= |steps|
  {
    if steps != [] {
      TallyBound(steps[..|steps| - 1]);
    }
  }

  lemma TallyOfStep(steps: seq<Step>, i: nat)
    requires i < |steps|
    ensures TallyOf(steps[..i + 1]) == Count(TallyOf(steps[..i]), steps[i])
  {
    assert steps[..i + 1][..i] == steps[..i];
  }

  /** One iteration of the row loop: count the attempt, map the row, count a success. */
  method TransformCountedRow(row: Row, mapping: SourceMapping, graph: Graph, watermark: int,
                             lib: DateLibrary, freshId: string, summary: Summary)
    modifies graph, summary
    ensures var step := RowStep(row, mapping, watermark, lib, freshId);
      && graph.triples == old(graph.triples) + step.added
      && summary.totalRows == old(summary.totalRows) + 1
      && summary.mappedRows == old(summary.mappedRows) + (if step.failure.None? then 1 else 0)
      && summary.errors == old(summary.errors) + ErrorsOf(step.failure)
      && summary.skippedDates == old(summary.skippedDates) + SkippedOf(step.failure)
      && summary.invalidLocations == old(summary.invalidLocations)
  {
    summary.totalRows := summary.totalRows + 1;
    var ok := TransformRowToRdf(row, mapping, graph, watermark, lib, freshId, summary);
    if ok {
      summary.mappedRows := summary.mappedRows + 1;
    }
  }

  /** The row loop in place: one attempt counted per row, one mapped row per
      success, and the chunk graph and the summary grow by the tally. */
  method TransformRows(rows: seq<Row>, mapping: SourceMapping, graph: Graph, watermark: int,
                       lib: DateLibrary, ids: nat -> string, first: nat, summary: Summary)
    modifies graph, summary
    ensures var t := RowsTally(rows, mapping, watermark, lib, ids, first);
      && graph.triples == old(graph.triples) + t.triples
      && summary.totalRows == old(summary.totalRows) + |rows|
      && summary.mappedRows == old(summary.mappedRows) + t.mapped
      && summary.errors == old(summary.errors) + t.errors
      && summary.skippedDates == old(summary.skippedDates) + t.skipped
      && summary.invalidLocations == old(summary.invalidLocations)
  {
    ghost var steps := RowSteps(rows, mapping, watermark, lib, ids, first);
    ghost var start := Held(graph, summary);
    var i := 0;
    while i < |rows|
      invariant i <= |rows|
      invariant Held(graph, summary) == Join(start, TallyOf(steps[..i]))
      invariant summary.totalRows == old(summary.totalRows) + i
      invariant summary.invalidLocations == old(summary.invalidLocations)
    {
      TallyOfStep(steps, i);
      TransformRowAt(rows, i, mapping, graph, watermark, lib, ids, first, summary);
      JoinCount(start, TallyOf(steps[..i]), steps[i]);
      i := i + 1;
    }
    assert steps[..|rows|] == steps;
  }

  /** The row loop's body for row `i`, stated on the steps of all the rows. */
  method TransformRowAt(rows: seq<Row>, i: nat, mapping: SourceMapping, graph: Graph, watermark: int,
                        lib: DateLibrary, ids: nat -> string, first: nat, summary: Summary)
    requires i < |rows|
    modifies graph, summary
    ensures Held(graph, summary) == Count(old(Held(graph, summary)), RowSteps(rows, mapping, watermark, lib, ids, first)[i])
    ensures summary.totalRows == old(summary.totalRows) + 1
    ensures summary.invalidLocations == old(summary.invalidLocations)
  {
    RowStepsAt(rows, mapping, watermark, lib, ids, first, i);
    TransformCountedRow(rows[i], mapping, graph, watermark, lib, ids(first + i), summary);
  }

  /** What the chunk graph and the summary hold, as a tally. */
  ghost function Held(graph: Graph, summary: Summary): Tally
    reads graph, summary
  {
    Tally(graph.triples, summary.mappedRows, summary.errors, summary.skippedDates)
  }

  /** Tally `t` counted on top of `base`. */
  function Join(base: Tally, t: Tally): Tally {
    Tally(base.triples + t.triples, base.mapped + t.mapped, base.errors + t.errors, base.skipped + t.skipped)
  }

  lemma JoinCount(base: Tally, t: Tally, step: Step)
    ensures Join(base, Count(t, step)) == Count(Join(base, t), step)
  {
    assert base.errors + (t.errors + ErrorsOf(step.failure)) == (base.errors + t.errors) + ErrorsOf(step.failure);
  }

  // ---------------------------------------------------------------------------
  // load_and_transform_data

  /** The state of a source's run after some chunks: the summary counters and
      collections, the chunk files written, and the exception that stopped
      the run, if any. */
  datatype Run = Run(total: nat, mapped: nat, errors: seq<string>, skipped: set<string>,
                     files: map<string, set<Triple>>, aborted: Option<string>)

  const NoRun := Run(0, 0, [], {}, map[], None)

  /** Chunk `n` on top of the run so far: nothing once the run has stopped;
      a location exception stops it; a chunk left without rows is skipped
      with no file; otherwise its rows are mapped into a fresh graph that is
      saved as the chunk's file. */
  function ChunkRun(prev: Run, n: nat, chunk: seq<Row>, mapping: SourceMapping, reference: seq<string>,
                    watermark: int, lib: DateLibrary, ids: nat -> string): Run {
    if prev.aborted.Some? then prev
    else
      match ChunkRows(chunk, HasField(mapping, LocationColumn), reference)
      case Err(e) => prev.(aborted := Some(e))
      case Ok(rows) => AddRows(prev, n, rows, mapping, watermark, lib, ids)
  }

  /** The rows a chunk kept, mapped on top of the run so far and saved as the
      chunk's file; no rows, no file. */
  function AddRows(prev: Run, n: nat, rows: seq<Row>, mapping: SourceMapping, watermark: int, lib: DateLibrary, ids: nat -> string): Run {
    if rows == [] then prev
    else AddTally(prev, n, |rows|, RowsTally(rows, mapping, watermark, lib, ids, prev.total))
  }

  /** `count` rows with tally `t` counted in, their triples saved as chunk `n`'s file. */
  function AddTally(prev: Run, n: nat, count: nat, t: Tally): Run {
    Run(prev.total + count, prev.mapped + t.mapped, prev.errors + t.errors, prev.skipped + t.skipped,
        prev.files[ChunkFileName(n) := t.triples], prev.aborted)
  }

  /** The chunk loop of `load_and_transform_data`. */
  function LoadRun(chunks: seq<seq<Row>>, mapping: SourceMapping, reference: seq<string>,
                   watermark: int, lib: DateLibrary, ids: nat -> string): Run
    decreases |chunks|
  {
    if chunks == [] then NoRun
    else
      var k := |chunks| - 1;
      ChunkRun(LoadRun(chunks[..k], mapping, reference, watermark, lib, ids), k, chunks[k], mapping, reference, watermark, lib, ids)
  }

  lemma LoadRunStep(chunks: seq<seq<Row>>, mapping: SourceMapping, reference: seq<string>,
                    watermark: int, lib: DateLibrary, ids: nat -> string, n: nat)
    requires n < |chunks|
    ensures LoadRun(chunks[..n + 1], mapping, reference, watermark, lib, ids)
      == ChunkRun(LoadRun(chunks[..n], mapping, reference, watermark, lib, ids), n, chunks[n], mapping, reference, watermark, lib, ids)
  {
    assert chunks[..n + 1][..n] == chunks[..n];
    assert chunks[..n + 1][n] == chunks[n];
  }

  /** Mapped rows and error lines together never outnumber the attempted rows;
      in particular `mapped_rows <= total_rows`. */
  lemma {:induction false} LoadRunBound(chunks: seq<seq<Row>>, mapping: SourceMapping, reference: seq<string>,
                                        watermark: int, lib: DateLibrary, ids: nat -> string)
    ensures var run := LoadRun(chunks, mapping, reference, watermark, lib, ids);
      run.mapped + |run.errors| <= run.total
  {
    if chunks != [] {
      var k := |chunks| - 1;
      var prev := LoadRun(chunks[..k], mapping, reference, watermark, lib, ids);
      LoadRunBound(chunks[..k], mapping, reference, watermark, lib, ids);
      var rows := ChunkRows(chunks[k], HasField(mapping, LocationColumn), reference);
      if prev.aborted.None? && rows.Ok? && rows.value != [] {
        TallyBound(RowSteps(rows.value, mapping, watermark, lib, ids, prev.total));
      }
    }
  }

  /** Once a chunk raises, the later chunks change nothing. */
  lemma {:induction false} LoadRunAbortStays(chunks: seq<seq<Row>>, mapping: SourceMapping, reference: seq<string>,
                                             watermark: int, lib: DateLibrary, ids: nat -> string, n: nat)
    requires n <= |chunks|
    requires LoadRun(chunks[..n], mapping, reference, watermark, lib, ids).aborted.Some?
    ensures LoadRun(chunks, mapping, reference, watermark, lib, ids) == LoadRun(chunks[..n], mapping, reference, watermark, lib, ids)
    decreases |chunks| - n
  {
    if n < |chunks| {
      LoadRunStep(chunks, mapping, reference, watermark, lib, ids, n);
      LoadRunAbortStays(chunks, mapping, reference, watermark, lib, ids, n + 1);
    } else {
      assert chunks[..n] == chunks;
    }
  }

  /** Does the chunk reach the row loop with at least one row? */
  predicate KeepsRows(chunk: seq<Row>, mapping: SourceMapping, reference: seq<string>) {
    var rows := ChunkRows(chunk, HasField(mapping, LocationColumn), reference);
    rows.Ok? && rows.value != []
  }

  /** Every file the run writes is the file of a chunk that kept rows. */
  lemma {:induction false} LoadRunFileOrigin(chunks: seq<seq<Row>>, mapping: SourceMapping, reference: seq<string>,
                                             watermark: int, lib: DateLibrary, ids: nat -> string, name: string)
    requires name in LoadRun(chunks, mapping, reference, watermark, lib, ids).files
    ensures exists n :: 0 <= n < |chunks| && name == ChunkFileName(n) && KeepsRows(chunks[n], mapping, reference)
  {
    var k := |chunks| - 1;
    var prev := LoadRun(chunks[..k], mapping, reference, watermark, lib, ids);
    var rows := ChunkRows(chunks[k], HasField(mapping, LocationColumn), reference);
    if name in prev.files {
      LoadRunFileOrigin(chunks[..k], mapping, reference, watermark, lib, ids, name);
      var n :| 0 <= n < k && name == ChunkFileName(n) && KeepsRows(chunks[..k][n], mapping, reference);
      assert chunks[..k][n] == chunks[n];
    } else {
      assert name == ChunkFileName(k);
    }
  }

  /** An empty chunk, a chunk with no valid location, or a chunk that raises
      saves no file. */
  lemma SkippedChunkWritesNothing(chunks: seq<seq<Row>>, mapping: SourceMapping, reference: seq<string>,
                                  watermark: int, lib: DateLibrary, ids: nat -> string, n: nat)
    requires n < |chunks|
    requires !KeepsRows(chunks[n], mapping, reference)
    ensures ChunkFileName(n) !in LoadRun(chunks, mapping, reference, watermark, lib, ids).files
  {
    if ChunkFileName(n) in LoadRun(chunks, mapping, reference, watermark, lib, ids).files {
      LoadRunFileOrigin(chunks, mapping, reference, watermark, lib, ids, ChunkFileName(n));
      var m :| 0 <= m < |chunks| && ChunkFileName(n) == ChunkFileName(m) && KeepsRows(chunks[m], mapping, reference);
      ChunkFileNameInjective(n, m);
    }
  }

  /** The text `load_and_transform_data` records for a source with no mapping. */
  function MissingMappingError(source: string): string {
    "No mapping configuration found for source '" + source + "'"
  }

  /** `run` on top of the counters, collections and files of `base`. */
  function Plus(base: Run, run: Run): Run {
    Run(base.total + run.total, base.mapped + run.mapped, base.errors + run.errors, base.skipped + run.skipped,
        base.files + run.files, None)
  }

  /** What the summary and the directory hold, as a run. */
  ghost function Observed(summary: Summary, dir: Directory): Run
    reads summary, dir
  {
    Run(summary.totalRows, summary.mappedRows, summary.errors, summary.skippedDates, dir.files, None)
  }

  /** The summary and the directory hold `base` with `run` added on top. */
  ghost predicate Reflects(run: Run, base: Run, invalid: set<string>, summary: Summary, dir: Directory)
    reads summary, dir
  {
    Observed(summary, dir) == Plus(base, run) && summary.invalidLocations == invalid
  }

  /** Adding a chunk's rows adds their tally and the chunk's file. */
  lemma PlusAddRows(base: Run, prev: Run, n: nat, rows: seq<Row>, mapping: SourceMapping, watermark: int,
                    lib: DateLibrary, ids: nat -> string, first: nat)
    requires rows != [] && first == prev.total
    ensures var t := RowsTally(rows, mapping, watermark, lib, ids, first);
      var before := Plus(base, prev);
      Plus(base, AddRows(prev, n, rows, mapping, watermark, lib, ids))
        == Run(before.total + |rows|, before.mapped + t.mapped, before.errors + t.errors, before.skipped + t.skipped,
               before.files[ChunkFileName(n) := t.triples], None)
  {
    PlusAddTally(base, prev, n, |rows|, RowsTally(rows, mapping, watermark, lib, ids, first));
  }

  lemma PlusAddTally(base: Run, prev: Run, n: nat, count: nat, t: Tally)
    ensures var before := Plus(base, prev);
      Plus(base, AddTally(prev, n, count, t))
        == Run(before.total + count, before.mapped + t.mapped, before.errors + t.errors, before.skipped + t.skipped,
               before.files[ChunkFileName(n) := t.triples], None)
  {
    assert base.files + prev.files[ChunkFileName(n) := t.triples] == (base.files + prev.files)[ChunkFileName(n) := t.triples];
    assert base.errors + (prev.errors + t.errors) == (base.errors + prev.errors) + t.errors;
  }

  /** One iteration of the chunk loop. */
  method TransformChunk(ghost prev: Run, ghost base: Run, ghost invalid: set<string>, n: nat, chunk: seq<Row>,
                        hasLocation: bool, mapping: SourceMapping, reference: seq<string>, watermark: int,
                        lib: DateLibrary, ids: nat -> string, attempted: nat, dir: Directory, summary: Summary)
    returns (error: Option<string>, kept: nat)
    requires prev.aborted.None? && attempted == prev.total && hasLocation == HasField(mapping, LocationColumn)
    requires Reflects(prev, base, invalid, summary, dir)
    modifies dir, summary
    ensures var next := ChunkRun(prev, n, chunk, mapping, reference, watermark, lib, ids);
      && error == next.aborted
      && (error.None? ==> Reflects(next, base, invalid, summary, dir) && attempted + kept == next.total)
      && (error.Some? ==> Reflects(prev, base, invalid, summary, dir))
  {
    var rows := ChunkRows(chunk, hasLocation, reference);
    if rows.Err? {
      return Some(rows.error), 0;
    }
    MapChunkRows(prev, base, invalid, n, rows.value, mapping, watermark, lib, ids, attempted, dir, summary);
    return None, |rows.value|;
  }

  /** The rows a chunk kept: mapped into a fresh graph, saved as the chunk's file. */
  method MapChunkRows(ghost prev: Run, ghost base: Run, ghost invalid: set<string>, n: nat, rows: seq<Row>,
                      mapping: SourceMapping, watermark: int, lib: DateLibrary, ids: nat -> string, first: nat,
                      dir: Directory, summary: Summary)
    requires first == prev.total && Reflects(prev, base, invalid, summary, dir)
    modifies dir, summary
    ensures Reflects(AddRows(prev, n, rows, mapping, watermark, lib, ids), base, invalid, summary, dir)
  {
    if rows != [] {
      PlusAddRows(base, prev, n, rows, mapping, watermark, lib, ids, first);
      var graph := new Graph();
      TransformRows(rows, mapping, graph, watermark, lib, ids, first, summary);
      dir.files := dir.files[ChunkFileName(n) := graph.triples];
      ghost var t := RowsTally(rows, mapping, watermark, lib, ids, first);
      ghost var before := Plus(base, prev);
      assert graph.triples == t.triples;
      assert summary.totalRows == before.total + |rows|;
      assert summary.errors == before.errors + t.errors;
      assert dir.files == before.files[ChunkFileName(n) := t.triples];
    }
  }

  /** The chunk loop in place: each chunk is filtered, its rows are mapped
      into a fresh graph, and the graph is saved under the chunk's file name;
      an exception from the location filter stops the loop and is returned. */
  method TransformChunks(chunks: seq<seq<Row>>, mapping: SourceMapping, reference: seq<string>, watermark: int,
                         lib: DateLibrary, ids: nat -> string, dir: Directory, summary: Summary) returns (aborted: Option<string>)
    modifies dir, summary
    ensures var run := LoadRun(chunks, mapping, reference, watermark, lib, ids);
      && aborted == run.aborted
      && summary.totalRows == old(summary.totalRows) + run.total
      && summary.mappedRows == old(summary.mappedRows) + run.mapped
      && summary.errors == old(summary.errors) + run.errors
      && summary.skippedDates == old(summary.skippedDates) + run.skipped
      && summary.invalidLocations == old(summary.invalidLocations)
      && dir.files == old(dir.files) + run.files
  {
    ghost var base := Run(summary.totalRows, summary.mappedRows, summary.errors, summary.skippedDates, dir.files, None);
    ghost var invalid := summary.invalidLocations;
    var hasLocation := HasField(mapping, LocationColumn);
    var attempted := 0;
    var n := 0;
    assert base.files + map[] == base.files;
    while n < |chunks|
      invariant n <= |chunks|
      invariant LoadRun(chunks[..n], mapping, reference, watermark, lib, ids).aborted.None?
      invariant attempted == LoadRun(chunks[..n], mapping, reference, watermark, lib, ids).total
      invariant Reflects(LoadRun(chunks[..n], mapping, reference, watermark, lib, ids), base, invalid, summary, dir)
    {
      LoadRunStep(chunks, mapping, reference, watermark, lib, ids, n);
      ghost var prev := LoadRun(chunks[..n], mapping, reference, watermark, lib, ids);
      var error, kept := TransformChunk(prev, base, invalid, n, chunks[n], hasLocation, mapping, reference, watermark, lib, ids, attempted, dir, summary);
      if error.Some? {
        LoadRunAbortStays(chunks, mapping, reference, watermark, lib, ids, n + 1);
        return error;
      }
      attempted := attempted + kept;
      n := n + 1;
    }
    assert chunks[..|chunks|] == chunks;
    aborted := None;
  }

  /** `load_and_transform_data` for one source: a fresh summary; a source with
      no mapping gets exactly one error line and nothing else; otherwise the
      summary and the chunk files are those of the run. */
  method LoadAndTransformData(source: string, chunks: seq<seq<Row>>, reference: seq<string>, watermark: int,
                              lib: DateLibrary, ids: nat -> string, dir: Directory) returns (summary: Summary, aborted: Option<string>)
    modifies dir
    ensures fresh(summary)
    ensures summary.invalidLocations == {}
    ensures source !in Mappings ==>
      && summary.errors == [MissingMappingError(source)]
      && summary.totalRows == 0 && summary.mappedRows == 0 && summary.skippedDates == {}
      && dir.files == old(dir.files) && aborted.None?
    ensures source in Mappings ==>
      var run := LoadRun(chunks, Mappings[source], reference, watermark, lib, ids);
      && aborted == run.aborted
      && summary.totalRows == run.total && summary.mappedRows == run.mapped
      && summary.errors == run.errors && summary.skippedDates == run.skipped
      && dir.files == old(dir.files) + run.files
  {
    summary := new Summary();
    if source !in Mappings {
      summary.AddError(MissingMappingError(source));
      return summary, None;
    }
    var mapping := Mappings[source];
    aborted := TransformChunks(chunks, mapping, reference, watermark, lib, ids, dir, summary);
  }

  // ---------------------------------------------------------------------------
  // combine_ttl_files

  /** The union of the graphs held by the listed files, in listing order. */
  function UnionOf(listing: seq<string>, files: map<string, set<Triple>>): set<Triple>
    requires forall i :: 0 <= i < |listing| ==> listing[i] in files
    decreases |listing|
  {
    if listing == [] then {}
    else UnionOf(listing[..|listing| - 1], files) + files[listing[|listing| - 1]]
  }

  /** A triple is in the union exactly when some listed file holds it. */
  lemma {:induction false} UnionOfMembers(listing: seq<string>, files: map<string, set<Triple>>, t: Triple)
    requires forall i :: 0 <= i < |listing| ==> listing[i] in files
    ensures t in UnionOf(listing, files) <==> exists i :: 0 <= i < |listing| && t in files[listing[i]]
  {
    if listing != [] {
      var k := |listing| - 1;
      UnionOfMembers(listing[..k], files, t);
      if exists i :: 0 <= i < |listing| && t in files[listing[i]] {
        var i :| 0 <= i < |listing| && t in files[listing[i]];
        if i < k {
          assert listing[..k][i] == listing[i];
        }
      }
    }
  }

  /** The merge order does not matter: listings of the same files give the
      same union, so merging chunk 10 before chunk 2 is harmless. */
  lemma UnionOfOrderFree(a: seq<string>, b: seq<string>, files: map<string, set<Triple>>)
    requires forall i :: 0 <= i < |a| ==> a[i] in files
    requires forall i :: 0 <= i < |b| ==> b[i] in files
    requires forall name :: name in a <==> name in b
    ensures UnionOf(a, files) == UnionOf(b, files)
  {
    forall t | t in UnionOf(a, files)
      ensures t in UnionOf(b, files)
    {
      UnionOfMembers(a, files, t);
      var i :| 0 <= i < |a| && t in files[a[i]];
      assert a[i] in b;
      var j :| 0 <= j < |b| && b[j] == a[i];
      UnionOfMembers(b, files, t);
    }
    forall t | t in UnionOf(b, files)
      ensures t in UnionOf(a, files)
    {
      UnionOfMembers(b, files, t);
      var j :| 0 <= j < |b| && t in files[b[j]];
      assert b[j] in a;
      var i :| 0 <= i < |a| && a[i] == b[j];
      UnionOfMembers(a, files, t);
    }
  }

  lemma UnionOfStep(listing: seq<string>, files: map<string, set<Triple>>, i: nat)
    requires i < |listing|
    requires forall k :: 0 <= k < |listing| ==> listing[k] in files
    ensures UnionOf(listing[..i + 1], files) == UnionOf(listing[..i], files) + files[listing[i]]
  {
    assert listing[..i + 1][..i] == listing[..i];
  }

  /** The read-back half of `combine_ttl_files`: the chunk graphs merged
      into one, in listing order. */
  method MergeChunks(listing: seq<string>, dir: Directory) returns (combined: Graph)
    requires forall k :: 0 <= k < |listing| ==> listing[k] in dir.files
    ensures fresh(combined)
    ensures combined.triples == UnionOf(listing, dir.files)
  {
    combined := new Graph();
    var i := 0;
    while i < |listing|
      invariant i <= |listing|
      invariant forall k :: 0 <= k < i ==> listing[..i][k] in dir.files
      invariant combined.triples == UnionOf(listing[..i], dir.files)
    {
      UnionOfStep(listing, dir.files, i);
      combined.AddAll(dir.files[listing[i]]);
      i := i + 1;
    }
    assert listing[..|listing|] == listing;
  }

  /** The unlink half of `combine_ttl_files`: each listed file is deleted. */
  method RemoveChunks(listing: seq<string>, dir: Directory)
    modifies dir
    ensures forall name :: name in dir.files <==> name in old(dir.files) && name !in listing
    ensures forall name :: name in dir.files ==> dir.files[name] == old(dir.files)[name]
  {
    var j := 0;
    while j < |listing|
      invariant j <= |listing|
      invariant forall name :: name in dir.files <==> name in old(dir.files) && name !in listing[..j]
      invariant forall name :: name in dir.files ==> dir.files[name] == old(dir.files)[name]
    {
      assert listing[..j + 1] == listing[..j] + [listing[j]];
      dir.files := dir.files - {listing[j]};
      j := j + 1;
    }
    assert listing[..|listing|] == listing;
  }

  /** What `create_progress_bar` raises for an empty glob. */
  const NoChunksError := "Total chunks must be a positive integer."

  /** `combine_ttl_files`: `listing` is the sorted glob of chunk files in the
      intermediate directory.  An empty glob raises ValueError from the
      progress bar before anything is written.  Otherwise the chunk graphs
      are read back and merged in that order, the union is saved as the
      source's output file, and the chunk files are deleted; other files are
      left alone. */
  method CombineTtlFiles(listing: seq<string>, dir: Directory, out: Directory, outputName: string)
    returns (error: Option<string>)
    requires dir != out
    requires SortedNames(listing)
    requires forall name :: name in listing <==> name in dir.files && IsChunkFile(name)
    modifies dir, out
    ensures error.Some? <==> listing == []
    ensures error.Some? ==> error.value == NoChunksError && out.files == old(out.files) && dir.files == old(dir.files)
    ensures error.None? ==> out.files == old(out.files)[outputName := UnionOf(listing, old(dir.files))]
    ensures error.None? ==> forall name :: name in dir.files <==> name in old(dir.files) && !IsChunkFile(name)
    ensures forall name :: name in dir.files ==> dir.files[name] == old(dir.files)[name]
  {
    if |listing| < 1 {
      return Some(NoChunksError);
    }
    var combined := MergeChunks(listing, dir);
    out.files := out.files[outputName := combined.triples];
    RemoveChunks(listing, dir);
    error := None;
  }
}
