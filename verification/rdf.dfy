/** The statements an extractor writes. */
module Rdf {

  /** An RDF term as passed to `writeTriple`. `Unresolved(curie)` is the
      `null` URI that prefix expansion returns for a CURIE whose prefix is
      outside the extractor's subset; it is handed on unchanged. */
  datatype Value =
    | Uri(iri: string)
    | BNode(id: nat)
    | Literal(lexical: string)
    | Unresolved(curie: string)

  datatype Triple = Triple(subj: Value, pred: Value, obj: Value)

  /** Every term of the triple is a real RDF term. */
  predicate Resolved(t: Triple) {
    !t.subj.Unresolved? && !t.pred.Unresolved? && !t.obj.Unresolved?
  }

  function BlankNodesOf(v: Value): set<nat> {
    if v.BNode? then {v.id} else {}
  }

  /** The ids of all blank nodes a sequence of triples mentions. */
  function BlankNodes(ts: seq<Triple>): (ids: set<nat>)
    ensures forall k :: 0 <= k < |ts| ==> BlankNodesOf(ts[k].subj) <= ids && BlankNodesOf(ts[k].obj) <= ids
  {
    if |ts| == 0 then {}
    else BlankNodesOf(ts[0].subj) + BlankNodesOf(ts[0].pred) + BlankNodesOf(ts[0].obj) + BlankNodes(ts[1..])
  }
}
