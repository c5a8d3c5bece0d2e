/**
  RDF terms, triples and the in-memory graph the transform stage writes to.
  A graph is a set of triples: adding a triple that is already there changes
  nothing, and the order of additions is not observable.
*/
module Rdf {
  import opened PyStr

  /** A node or an edge label: an IRI, or a literal with its optional datatype IRI. */
  datatype Term = Iri(iri: string) | Literal(lexical: string, datatypeIri: Option<string>)

  datatype Triple = Triple(subj: Term, pred: Term, obj: Term)

  const RdfNs := "http://www.w3.org/1999/02/22-rdf-syntax-ns#"
  const RdfsNs := "http://www.w3.org/2000/01/rdf-schema#"
  const OwlNs := "http://www.w3.org/2002/07/owl#"
  const XsdNs := "http://www.w3.org/2001/XMLSchema#"

  const RdfType := Iri(RdfNs + "type")
  const RdfsLabel := Iri(RdfsNs + "label")
  const RdfsSubClassOf := Iri(RdfsNs + "subClassOf")
  const RdfsDomain := Iri(RdfsNs + "domain")
  const RdfsRange := Iri(RdfsNs + "range")
  const OwlClass := Iri(OwlNs + "Class")
  const OwlObjectProperty := Iri(OwlNs + "ObjectProperty")
  const OwlDatatypeProperty := Iri(OwlNs + "DatatypeProperty")

  const XsdString := XsdNs + "string"
  const XsdInteger := XsdNs + "integer"
  const XsdDecimal := XsdNs + "decimal"
  const XsdDate := XsdNs + "date"
  const XsdDateTime := XsdNs + "dateTime"
  const XsdGYear := XsdNs + "gYear"
  const XsdGYearMonth := XsdNs + "gYearMonth"

  /** A literal without datatype or language tag, as `Literal(text)` builds it. */
  function PlainLiteral(text: string): Term {
    Literal(text, None)
  }

  function TypedLiteral(text: string, datatypeIri: string): Term {
    Literal(text, Some(datatypeIri))
  }

  /** An rdflib `Graph`: a mutable set of triples. */
  class Graph {
    var triples: set<Triple>

    constructor ()
      ensures triples == {}
    {
      triples := {};
    }

    /** `graph.add(t)`. */
    method Add(t: Triple)
      modifies this
      ensures triples == old(triples) + {t}
    {
      triples := triples + {t};
    }

    /** `graph += other`. */
    method AddAll(ts: set<Triple>)
      modifies this
      ensures triples == old(triples) + ts
    {
      triples := triples + ts;
    }
  }

  /** The vocabulary terms are pairwise distinct. */
  lemma VocabularyDistinct()
    ensures RdfType != RdfsLabel && RdfType != RdfsSubClassOf && RdfType != RdfsDomain && RdfType != RdfsRange
    ensures RdfsLabel != RdfsSubClassOf && RdfsLabel != RdfsDomain && RdfsLabel != RdfsRange
    ensures RdfsSubClassOf != RdfsDomain && RdfsSubClassOf != RdfsRange && RdfsDomain != RdfsRange
    ensures OwlClass != OwlObjectProperty && OwlClass != OwlDatatypeProperty
    ensures OwlObjectProperty != OwlDatatypeProperty
  {
    assert RdfType.iri[|RdfNs|] == 't' && RdfType.iri[18] == '1';
    assert RdfsLabel.iri[|RdfsNs|] == 'l' && RdfsLabel.iri[18] == '2';
    assert RdfsSubClassOf.iri[|RdfsNs|] == 's';
    assert RdfsDomain.iri[|RdfsNs|] == 'd';
    assert RdfsRange.iri[|RdfsNs|] == 'r';
    assert OwlClass.iri[|OwlNs|] == 'C';
    assert OwlObjectProperty.iri[|OwlNs|] == 'O';
    assert OwlDatatypeProperty.iri[|OwlNs|] == 'D';
  }
}
