/**
  The ontology creator: it writes the skeleton of the ontology (classes,
  subclasses, object properties and data properties of the registry) into
  an RDF graph, then adds the triples of every transformed Turtle file.
*/
module Ontology {
  import opened PyStr
  import opened Rdf
  import opened Registry
  import Pipeline

  // ---------------------------------------------------------------------------
  // What each declaration contributes

  /** A class: typed `owl:Class`, labelled with its name. */
  function ClassDeclTriples(c: ClassDecl): set<Triple> {
    {Triple(Iri(c.uri), RdfType, OwlClass), Triple(Iri(c.uri), RdfsLabel, PlainLiteral(c.name))}
  }

  /** A subclass: typed `owl:Class`, placed under its parent, labelled. */
  function SubclassDeclTriples(c: SubclassDecl): set<Triple> {
    {Triple(Iri(c.uri), RdfType, OwlClass),
     Triple(Iri(c.uri), RdfsSubClassOf, Iri(c.parent)),
     Triple(Iri(c.uri), RdfsLabel, PlainLiteral(c.name))}
  }

  /** An object property: typed, with its domain, range and label. */
  function ObjectPropertyDeclTriples(p: ObjectPropertyDecl): set<Triple> {
    {Triple(Iri(p.uri), RdfType, OwlObjectProperty),
     Triple(Iri(p.uri), RdfsDomain, Iri(p.domain)),
     Triple(Iri(p.uri), RdfsRange, Iri(p.range)),
     Triple(Iri(p.uri), RdfsLabel, PlainLiteral(p.name))}
  }

  /** A data property: typed, labelled with its dictionary key. */
  function DataPropertyDeclTriples(p: DataPropertyDecl): set<Triple> {
    {Triple(Iri(p.uri), RdfType, OwlDatatypeProperty), Triple(Iri(p.uri), RdfsLabel, PlainLiteral(p.name))}
  }

  /** The triples a run of declarations contributes, in declaration order. */
  function UnionMap<T>(decls: seq<T>, f: T -> set<Triple>): set<Triple>
    decreases |decls|
  {
    if decls == [] then {} else UnionMap(decls[..|decls| - 1], f) + f(decls[|decls| - 1])
  }

  /** A triple is contributed exactly when one of the declarations contributes it. */
  lemma {:induction false} UnionMapMembers<T>(decls: seq<T>, f: T -> set<Triple>, t: Triple)
    ensures t in UnionMap(decls, f) <==> exists i :: 0 <= i < |decls| && t in f(decls[i])
  {
    if decls != [] {
      var k := |decls| - 1;
      UnionMapMembers(decls[..k], f, t);
      if exists i :: 0 <= i < |decls| && t in f(decls[i]) {
        var i :| 0 <= i < |decls| && t in f(decls[i]);
        if i < k {
          assert decls[..k][i] == decls[i];
        }
      }
    }
  }

  lemma UnionMapStep<T>(decls: seq<T>, f: T -> set<Triple>, i: nat)
    requires i < |decls|
    ensures UnionMap(decls[..i + 1], f) == UnionMap(decls[..i], f) + f(decls[i])
  {
    assert decls[..i + 1][..i] == decls[..i];
  }

  function ClassPart(): set<Triple> {
    UnionMap(Classes, ClassDeclTriples)
  }

  function SubclassPart(): set<Triple> {
    UnionMap(Subclasses, SubclassDeclTriples)
  }

  function ObjectPropertyPart(): set<Triple> {
    UnionMap(ObjectProperties, ObjectPropertyDeclTriples)
  }

  function DataPropertyPart(): set<Triple> {
    UnionMap(DataProperties, DataPropertyDeclTriples)
  }

  /** Everything `create_ontology` writes. */
  function Skeleton(): set<Triple> {
    ClassPart() + SubclassPart() + ObjectPropertyPart() + DataPropertyPart()
  }

  // ---------------------------------------------------------------------------
  // Facts about the skeleton

  /** What the class declarations write: a type and a label per class. */
  lemma InClassPart(t: Triple)
    requires t in ClassPart()
    ensures t.pred == RdfType || t.pred == RdfsLabel
    ensures t.pred == RdfType ==> t.obj == OwlClass && t.subj.Iri? && t.subj.iri in ClassUris()
  {
    UnionMapMembers(Classes, ClassDeclTriples, t);
    var i :| 0 <= i < |Classes| && t in ClassDeclTriples(Classes[i]);
    assert Classes[i] in Classes;
  }

  /** What the subclass declarations write: a type, a parent and a label each. */
  lemma InSubclassPart(t: Triple)
    requires t in SubclassPart()
    ensures t.pred == RdfType || t.pred == RdfsSubClassOf || t.pred == RdfsLabel
    ensures t.pred == RdfType ==> t.obj == OwlClass && t.subj.Iri? && t.subj.iri in SubclassUris()
    ensures t.pred == RdfsSubClassOf ==> t.obj.Iri? && t.obj.iri in ClassUris() + SubclassUris()
  {
    UnionMapMembers(Subclasses, SubclassDeclTriples, t);
    var i :| 0 <= i < |Subclasses| && t in SubclassDeclTriples(Subclasses[i]);
    var c := Subclasses[i];
    assert c in Subclasses;
    SubclassParentsDeclared();
    SubclassTriple(c, t);
  }

  lemma SubclassTriple(c: SubclassDecl, t: Triple)
    requires t in SubclassDeclTriples(c)
    ensures t.pred == RdfType ==> t == Triple(Iri(c.uri), RdfType, OwlClass)
    ensures t.pred == RdfsSubClassOf ==> t.obj == Iri(c.parent)
    ensures t.pred == RdfType || t.pred == RdfsSubClassOf || t.pred == RdfsLabel
  {
    VocabularyDistinct();
  }

  /** What the object-property declarations write; their domains and ranges
      are declared classes. */
  lemma InObjectPropertyPart(t: Triple)
    requires t in ObjectPropertyPart()
    ensures t.pred == RdfType || t.pred == RdfsDomain || t.pred == RdfsRange || t.pred == RdfsLabel
    ensures t.pred == RdfType ==> t.obj == OwlObjectProperty
    ensures t.pred == RdfsDomain || t.pred == RdfsRange ==> t.obj.Iri? && t.obj.iri in ClassUris()
  {
    UnionMapMembers(ObjectProperties, ObjectPropertyDeclTriples, t);
    var i :| 0 <= i < |ObjectProperties| && t in ObjectPropertyDeclTriples(ObjectProperties[i]);
    var p := ObjectProperties[i];
    assert p in ObjectProperties;
    ObjectPropertyEndsDeclared();
    ObjectPropertyTriple(p, t);
  }

  lemma ObjectPropertyTriple(p: ObjectPropertyDecl, t: Triple)
    requires t in ObjectPropertyDeclTriples(p)
    ensures t.pred == RdfType ==> t.obj == OwlObjectProperty
    ensures t.pred == RdfsDomain ==> t.obj == Iri(p.domain)
    ensures t.pred == RdfsRange ==> t.obj == Iri(p.range)
    ensures t.pred == RdfType || t.pred == RdfsDomain || t.pred == RdfsRange || t.pred == RdfsLabel
  {
    VocabularyDistinct();
  }

  /** What the data-property declarations write: a type and a label each. */
  lemma InDataPropertyPart(t: Triple)
    requires t in DataPropertyPart()
    ensures t.pred == RdfType || t.pred == RdfsLabel
    ensures t.pred == RdfType ==> t.obj == OwlDatatypeProperty
  {
    UnionMapMembers(DataProperties, DataPropertyDeclTriples, t);
  }

  /** Every domain and range of an object property is a declared class. */
  lemma ObjectPropertyEndsDeclared()
    ensures forall p :: p in ObjectProperties ==> p.domain in ClassUris() && p.range in ClassUris()
  {
    assert Classes[0].uri == PropNs + "Property";
    assert Classes[1].uri == TimeNs + "TimePoint";
    assert Classes[2].uri == LocNs + "Location";
    assert Classes[3].uri == EconNs + "EconomicIndicator";
  }

  /** A URI is declared an `owl:Class` by the skeleton exactly when the
      registry lists it as a class or a subclass. */
  lemma SkeletonClasses(u: string)
    ensures Triple(Iri(u), RdfType, OwlClass) in Skeleton() <==> u in ClassUris() + SubclassUris()
  {
    var t := Triple(Iri(u), RdfType, OwlClass);
    if u in ClassUris() {
      var c :| c in Classes && c.uri == u;
      var i :| 0 <= i < |Classes| && Classes[i] == c;
      assert t in ClassDeclTriples(Classes[i]);
      UnionMapMembers(Classes, ClassDeclTriples, t);
    } else if u in SubclassUris() {
      var c :| c in Subclasses && c.uri == u;
      var i :| 0 <= i < |Subclasses| && Subclasses[i] == c;
      assert t in SubclassDeclTriples(Subclasses[i]);
      UnionMapMembers(Subclasses, SubclassDeclTriples, t);
    } else {
      VocabularyDistinct();
      if t in ClassPart() { InClassPart(t); }
      if t in SubclassPart() { InSubclassPart(t); }
      if t in ObjectPropertyPart() { InObjectPropertyPart(t); }
      if t in DataPropertyPart() { InDataPropertyPart(t); }
    }
  }

  /** The time-point kinds the transform stage types its date nodes with:
      Year, YearMonth and FullDate are declared classes, AcademicYear is not. */
  lemma TimeNodeClasses()
    ensures Triple(Iri(TimeNs + "Year"), RdfType, OwlClass) in Skeleton()
    ensures Triple(Iri(TimeNs + "YearMonth"), RdfType, OwlClass) in Skeleton()
    ensures Triple(Iri(TimeNs + "FullDate"), RdfType, OwlClass) in Skeleton()
    ensures Triple(Iri(TimeNs + "AcademicYear"), RdfType, OwlClass) !in Skeleton()
  {
    assert Subclasses[3].uri == TimeNs + "Year";
    assert Subclasses[4].uri == TimeNs + "YearMonth";
    assert Subclasses[5].uri == TimeNs + "FullDate";
    SkeletonClasses(TimeNs + "Year");
    SkeletonClasses(TimeNs + "YearMonth");
    SkeletonClasses(TimeNs + "FullDate");
    AcademicYearNotRegistered();
    SkeletonClasses(TimeNs + "AcademicYear");
  }

  /** Registered URIs either sit outside the time namespace or name a kind
      whose first letter is not an A. */
  lemma AcademicYearNotRegistered()
    ensures TimeNs + "AcademicYear" !in ClassUris() + SubclassUris()
  {
    AcademicYearNotAClass();
    AcademicYearNotASubclass();
  }

  lemma AcademicYearNotAClass()
    ensures TimeNs + "AcademicYear" !in ClassUris()
  {
    var u := TimeNs + "AcademicYear";
    assert u[19] == 't' && u[24] == 'A';
    forall c | c in Classes
      ensures c.uri != u
    {
      assert |c.uri| > 24 && (c.uri[19] != 't' || c.uri[24] != 'A');
    }
  }

  lemma AcademicYearNotASubclass()
    ensures TimeNs + "AcademicYear" !in SubclassUris()
  {
    var u := TimeNs + "AcademicYear";
    assert u[19] == 't' && u[24] == 'A';
    forall c | c in Subclasses
      ensures c.uri != u
    {
      assert |c.uri| > 24 && (c.uri[19] != 't' || c.uri[24] != 'A');
    }
  }

  /** Every `rdfs:subClassOf` triple of the skeleton points at a declared class. */
  lemma SkeletonParentsDeclared(t: Triple)
    requires t in Skeleton() && t.pred == RdfsSubClassOf
    ensures t.obj.Iri? && Triple(t.obj, RdfType, OwlClass) in Skeleton()
  {
    VocabularyDistinct();
    if t in ClassPart() { InClassPart(t); }
    if t in ObjectPropertyPart() { InObjectPropertyPart(t); }
    if t in DataPropertyPart() { InDataPropertyPart(t); }
    InSubclassPart(t);
    SkeletonClasses(t.obj.iri);
  }

  /** Every `rdfs:domain` or `rdfs:range` triple of the skeleton points at a
      declared class. */
  lemma SkeletonEndsDeclared(t: Triple)
    requires t in Skeleton() && (t.pred == RdfsDomain || t.pred == RdfsRange)
    ensures t.obj.Iri? && Triple(t.obj, RdfType, OwlClass) in Skeleton()
  {
    VocabularyDistinct();
    if t in ClassPart() { InClassPart(t); }
    if t in SubclassPart() { InSubclassPart(t); }
    if t in DataPropertyPart() { InDataPropertyPart(t); }
    InObjectPropertyPart(t);
    SkeletonClasses(t.obj.iri);
  }

  /** Each data property is typed `owl:DatatypeProperty` and labelled with its key. */
  lemma SkeletonDataProperties(p: DataPropertyDecl)
    requires p in DataProperties
    ensures Triple(Iri(p.uri), RdfType, OwlDatatypeProperty) in Skeleton()
    ensures Triple(Iri(p.uri), RdfsLabel, PlainLiteral(p.name)) in Skeleton()
  {
    var i :| 0 <= i < |DataProperties| && DataProperties[i] == p;
    UnionMapMembers(DataProperties, DataPropertyDeclTriples, Triple(Iri(p.uri), RdfType, OwlDatatypeProperty));
    UnionMapMembers(DataProperties, DataPropertyDeclTriples, Triple(Iri(p.uri), RdfsLabel, PlainLiteral(p.name)));
  }

  // ---------------------------------------------------------------------------
  // populate_ontology inputs

  /** A Turtle file of the transformed-data directory, with what parsing it
      yields (None when the parser raises). */
  datatype TurtleFile = TurtleFile(name: string, parsed: Option<set<Triple>>)

  /** The triples of every file that parses, in listing order. */
  function ParsedUnion(files: seq<TurtleFile>): set<Triple>
    decreases |files|
  {
    if files == [] then {}
    else
      var last := files[|files| - 1];
      ParsedUnion(files[..|files| - 1]) + (if last.parsed.Some? then last.parsed.value else {})
  }

  /** A triple is added exactly when some file that parses holds it; files
      that fail to parse contribute nothing. */
  lemma {:induction false} ParsedUnionMembers(files: seq<TurtleFile>, t: Triple)
    ensures t in ParsedUnion(files) <==>
      exists i :: 0 <= i < |files| && files[i].parsed.Some? && t in files[i].parsed.value
  {
    if files != [] {
      var k := |files| - 1;
      ParsedUnionMembers(files[..k], t);
      if exists i :: 0 <= i < |files| && files[i].parsed.Some? && t in files[i].parsed.value {
        var i :| 0 <= i < |files| && files[i].parsed.Some? && t in files[i].parsed.value;
        if i < k {
          assert files[..k][i] == files[i];
        }
      }
    }
  }

  lemma ParsedUnionStep(files: seq<TurtleFile>, i: nat)
    requires i < |files|
    ensures ParsedUnion(files[..i + 1]) ==
      ParsedUnion(files[..i]) + (if files[i].parsed.Some? then files[i].parsed.value else {})
  {
    assert files[..i + 1][..i] == files[..i];
  }

  /** The files the transform stage wrote, read back by a parser that gives
      each file's graph back. */
  function ReadBack(listing: seq<string>, files: map<string, set<Triple>>): (r: seq<TurtleFile>)
    requires forall i :: 0 <= i < |listing| ==> listing[i] in files
    ensures |r| == |listing|
  {
    seq(|listing|, i requires 0 <= i < |listing| => TurtleFile(listing[i], Some(files[listing[i]])))
  }

  /** When every file parses back to what was written, populating adds
      exactly the union of the written graphs. */
  lemma ReadBackUnion(listing: seq<string>, files: map<string, set<Triple>>)
    requires forall i :: 0 <= i < |listing| ==> listing[i] in files
    ensures ParsedUnion(ReadBack(listing, files)) == Pipeline.UnionOf(listing, files)
  {
    var r := ReadBack(listing, files);
    forall t
      ensures t in ParsedUnion(r) <==> t in Pipeline.UnionOf(listing, files)
    {
      ParsedUnionMembers(r, t);
      Pipeline.UnionOfMembers(listing, files, t);
      if t in Pipeline.UnionOf(listing, files) {
        var i :| 0 <= i < |listing| && t in files[listing[i]];
        assert r[i].parsed == Some(files[listing[i]]);
      }
    }
  }

  // ---------------------------------------------------------------------------
  // OntologyCreator

  /** `OntologyCreator`: the registry it reads is the constant `Registry`
      module; the graph is the state it builds up. */
  class OntologyCreator {
    var graph: Graph

    constructor ()
      ensures fresh(graph) && graph.triples == {}
    {
      graph := new Graph();
    }

    /** `create_ontology`: the skeleton is added to whatever the graph holds. */
    method CreateOntology()
      modifies graph
      ensures graph.triples == old(graph.triples) + Skeleton()
    {
      AddClasses();
      AddSubclasses();
      AddObjectProperties();
      AddDataProperties();
    }

    method AddClasses()
      modifies graph
      ensures graph.triples == old(graph.triples) + ClassPart()
    {
      var i := 0;
      while i < |Classes|
        invariant i <= |Classes|
        invariant graph.triples == old(graph.triples) + UnionMap(Classes[..i], ClassDeclTriples)
      {
        var c := Classes[i];
        UnionMapStep(Classes, ClassDeclTriples, i);
        graph.Add(Triple(Iri(c.uri), RdfType, OwlClass));
        graph.Add(Triple(Iri(c.uri), RdfsLabel, PlainLiteral(c.name)));
        i := i + 1;
      }
      assert Classes[..i] == Classes;
    }

    method AddSubclasses()
      modifies graph
      ensures graph.triples == old(graph.triples) + SubclassPart()
    {
      var i := 0;
      while i < |Subclasses|
        invariant i <= |Subclasses|
        invariant graph.triples == old(graph.triples) + UnionMap(Subclasses[..i], SubclassDeclTriples)
      {
        var c := Subclasses[i];
        UnionMapStep(Subclasses, SubclassDeclTriples, i);
        graph.Add(Triple(Iri(c.uri), RdfType, OwlClass));
        graph.Add(Triple(Iri(c.uri), RdfsSubClassOf, Iri(c.parent)));
        graph.Add(Triple(Iri(c.uri), RdfsLabel, PlainLiteral(c.name)));
        i := i + 1;
      }
      assert Subclasses[..i] == Subclasses;
    }

    method AddObjectProperties()
      modifies graph
      ensures graph.triples == old(graph.triples) + ObjectPropertyPart()
    {
      var i := 0;
      while i < |ObjectProperties|
        invariant i <= |ObjectProperties|
        invariant graph.triples == old(graph.triples) + UnionMap(ObjectProperties[..i], ObjectPropertyDeclTriples)
      {
        var p := ObjectProperties[i];
        UnionMapStep(ObjectProperties, ObjectPropertyDeclTriples, i);
        graph.Add(Triple(Iri(p.uri), RdfType, OwlObjectProperty));
        graph.Add(Triple(Iri(p.uri), RdfsDomain, Iri(p.domain)));
        graph.Add(Triple(Iri(p.uri), RdfsRange, Iri(p.range)));
        graph.Add(Triple(Iri(p.uri), RdfsLabel, PlainLiteral(p.name)));
        i := i + 1;
      }
      assert ObjectProperties[..i] == ObjectProperties;
    }

    method AddDataProperties()
      modifies graph
      ensures graph.triples == old(graph.triples) + DataPropertyPart()
    {
      var i := 0;
      while i < |DataProperties|
        invariant i <= |DataProperties|
        invariant graph.triples == old(graph.triples) + UnionMap(DataProperties[..i], DataPropertyDeclTriples)
      {
        var p := DataProperties[i];
        UnionMapStep(DataProperties, DataPropertyDeclTriples, i);
        graph.Add(Triple(Iri(p.uri), RdfType, OwlDatatypeProperty));
        graph.Add(Triple(Iri(p.uri), RdfsLabel, PlainLiteral(p.name)));
        i := i + 1;
      }
      assert DataProperties[..i] == DataProperties;
    }

    /** `populate_ontology`: `directory` is None when the path is missing or
        not a directory, otherwise the `*.ttl` files in it.  A file that fails
        to parse is reported and skipped. */
    method PopulateOntology(directory: Option<seq<TurtleFile>>)
      modifies graph
      ensures directory.None? ==> graph.triples == old(graph.triples)
      ensures directory.Some? ==> graph.triples == old(graph.triples) + ParsedUnion(directory.value)
    {
      if directory.None? {
        return;
      }
      var files := directory.value;
      if files == [] {
        return;
      }
      var i := 0;
      while i < |files|
        invariant i <= |files|
        invariant graph.triples == old(graph.triples) + ParsedUnion(files[..i])
      {
        ParsedUnionStep(files, i);
        match files[i].parsed {
          case Some(triples) => graph.AddAll(triples);
          case None =>
        }
        i := i + 1;
      }
      assert files[..i] == files;
    }
  }
}
