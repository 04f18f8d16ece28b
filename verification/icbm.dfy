/** The ICBM extractor: reads the `content` of an `ICBM` or `geo.position`
    META tag, splits it on ';' or ',', parses the first two tokens as
    numbers and describes the point they give with four triples about one
    fresh blank node. */
module Icbm {
  import opened Results
  import opened Rdf
  import opened Descriptions
  import JavaSplit
  import Prefixes

  /** `Float.parseFloat` and `Float.toString`, kept abstract: `parse`
      answers `None` where the JDK throws `NumberFormatException`. */
  datatype NumberFormat<!F> = NumberFormat(parse: string -> Option<F>, show: F -> string)

  /** The uncaught `ArrayIndexOutOfBoundsException` of reading `coords[index]`. */
  datatype RunError = IndexOutOfBounds(index: nat)

  /** The static `factory` description. */
  const Factory: Description := Description(
    "html-head-icbm",
    ["geo", "rdf"],
    [MimeWeight("text/html", 1), MimeWeight("application/xhtml+xml", 1)],
    None)

  /** A CURIE as `run` spells it, `prefix:reference`. */
  datatype Curie = Curie(prefix: string, reference: string) {
    function Text(): string {
      prefix + ":" + reference
    }
  }

  const Related := Curie("dcterms", "related")
  const RdfType := Curie("rdf", "type")
  const GeoPointClass := Curie("geo", "Point")
  const GeoLat := Curie("geo", "lat")
  const GeoLong := Curie("geo", "long")

  /** The five terms `run` expands, each resolved within a prefix subset. */
  datatype Vocabulary = Vocabulary(related: Value, typ: Value, point: Value, lat: Value, long: Value)

  /** A CURIE expanded within `sub`, with the `null` of an unknown prefix kept visible. */
  function ExpandTerm(sub: Prefixes.Catalog, curie: string): (v: Value)
    ensures v.Uri? || v == Unresolved(curie)
  {
    match Prefixes.Expand(sub, curie)
    case Some(iri) => Uri(iri)
    case None => Unresolved(curie)
  }

  /** The terms `run` expands, each a URI or its own unresolved CURIE. */
  function VocabularyIn(sub: Prefixes.Catalog): (v: Vocabulary)
    ensures v.related.Uri? || v.related == Unresolved(Related.Text())
    ensures v.typ.Uri? || v.typ == Unresolved(RdfType.Text())
    ensures v.point.Uri? || v.point == Unresolved(GeoPointClass.Text())
    ensures v.lat.Uri? || v.lat == Unresolved(GeoLat.Text())
    ensures v.long.Uri? || v.long == Unresolved(GeoLong.Text())
  {
    Vocabulary(
      ExpandTerm(sub, Related.Text()),
      ExpandTerm(sub, RdfType.Text()),
      ExpandTerm(sub, GeoPointClass.Text()),
      ExpandTerm(sub, GeoLat.Text()),
      ExpandTerm(sub, GeoLong.Text()))
  }

  /** What the four triples say: the document is related to a point whose
      latitude and longitude literals are `lat` and `long`. */
  datatype GeoPoint = GeoPoint(document: string, node: nat, lat: string, long: string)

  /** The triples written at lines 48-51, in order. */
  function PointTriples(v: Vocabulary, g: GeoPoint): seq<Triple> {
    [ Triple(Uri(g.document), v.related, BNode(g.node)),
      Triple(BNode(g.node), v.typ, v.point),
      Triple(BNode(g.node), v.lat, Literal(g.lat)),
      Triple(BNode(g.node), v.long, Literal(g.long)) ]
  }

  /** Reads a point description back out of written triples. */
  function ReadPoint(v: Vocabulary, ts: seq<Triple>): (r: Option<GeoPoint>)
    ensures r.Some? ==> ts == PointTriples(v, r.value)
  {
    if && |ts| == 4
       && ts[0].subj.Uri? && ts[0].pred == v.related && ts[0].obj.BNode?
       && ts[1] == Triple(ts[0].obj, v.typ, v.point)
       && ts[2].subj == ts[0].obj && ts[2].pred == v.lat && ts[2].obj.Literal?
       && ts[3].subj == ts[0].obj && ts[3].pred == v.long && ts[3].obj.Literal?
    then Some(GeoPoint(ts[0].subj.iri, ts[0].obj.id, ts[2].obj.lexical, ts[3].obj.lexical))
    else None
  }

  lemma ReadPointRoundTrip(v: Vocabulary, g: GeoPoint)
    ensures ReadPoint(v, PointTriples(v, g)) == Some(g)
  {
  }

  /** The string `DomUtils.find` yields for the META lookup: the string
      value of the first matching attribute, and "" when nothing matches
      (the string value of an empty node-set in section 4.2 of XPath 1.0). */
  function ContentString(content: Option<string>): string {
    match content
    case Some(s) => s
    case None => ""
  }

  /** `run` as written, with expansion against the subset `sub` and the
      blank node `point` drawn from the fresh value factory. It writes
      nothing, writes the four point triples, or ends in an uncaught index
      error when fewer than two tokens are there to read. */
  function Extract<F>(fmt: NumberFormat<F>, sub: Prefixes.Catalog, content: Option<string>,
                      document: string, point: nat): (r: Result<seq<Triple>, RunError>)
    ensures r.Success? ==> |r.value| == 0 || |r.value| == 4
    ensures r.Failure? ==>
      ContentString(content) != "" && r.error.index == |JavaSplit.Split(ContentString(content))| < 2
    ensures r.Success? && r.value != [] ==>
      var tokens := JavaSplit.Split(ContentString(content));
      && |tokens| >= 2
      && fmt.parse(tokens[0]).Some? && fmt.parse(tokens[1]).Some?
      && ReadPoint(VocabularyIn(sub), r.value) == Some(GeoPoint(document, point,
           fmt.show(fmt.parse(tokens[0]).value), fmt.show(fmt.parse(tokens[1]).value)))
  {
    var props := ContentString(content);
    if props == "" then Success([])
    else
      var coords := JavaSplit.Split(props);
      if |coords| == 0 then Failure(IndexOutOfBounds(0))
      else
        match fmt.parse(coords[0])
        case None => Success([])
        case Some(lat) =>
          if |coords| == 1 then Failure(IndexOutOfBounds(1))
          else
            match fmt.parse(coords[1])
            case None => Success([])
            case Some(lon) =>
              var g := GeoPoint(document, point, fmt.show(lat), fmt.show(lon));
              ReadPointRoundTrip(VocabularyIn(sub), g);
              Success(PointTriples(VocabularyIn(sub), g))
  }

  /** The extractor as the source builds it: expansion within the subset
      its `factory` declares. Every point it writes carries the unresolved
      "dcterms:related" as the predicate of its first triple. */
  function Run<F>(fmt: NumberFormat<F>, catalog: Prefixes.Catalog, content: Option<string>,
                  document: string, point: nat): (r: Result<seq<Triple>, RunError>)
    ensures r.Success? && r.value != [] ==> r.value[0].pred == Unresolved(Related.Text())
  {
    RelatedPredicateUnresolved(catalog);
    Extract(fmt, Prefixes.CreateSubset(catalog, Factory.prefixes), content, document, point)
  }

  /** An empty or missing META value writes nothing and returns normally. */
  lemma EmptyContentWritesNothing<F>(fmt: NumberFormat<F>, sub: Prefixes.Catalog,
                                     content: Option<string>, document: string, point: nat)
    requires content == None || content == Some("")
    ensures Extract(fmt, sub, content, document, point) == Success([])
  {
  }

  /** Swapping ';' and ',' anywhere in the content changes nothing. */
  lemma SeparatorsInterchangeable<F>(fmt: NumberFormat<F>, sub: Prefixes.Catalog,
                                     s: string, t: string, document: string, point: nat)
    requires JavaSplit.Canonical(s) == JavaSplit.Canonical(t)
    ensures Extract(fmt, sub, Some(s), document, point) == Extract(fmt, sub, Some(t), document, point)
  {
    JavaSplit.SplitIgnoresSeparatorKind(s, t);
    assert |s| == |JavaSplit.Canonical(s)| == |t|;
  }

  /** A first or second token that does not parse as a number writes
      nothing, and the `NumberFormatException` does not escape. */
  lemma UnparsableTokenWritesNothing<F>(fmt: NumberFormat<F>, sub: Prefixes.Catalog,
                                        s: string, document: string, point: nat)
    requires var tokens := JavaSplit.Split(s);
      || (|tokens| >= 1 && fmt.parse(tokens[0]).None?)
      || (|tokens| >= 2 && fmt.parse(tokens[1]).None?)
    ensures Extract(fmt, sub, Some(s), document, point) == Success([])
  {
  }

  /** Two leading tokens that both parse always give the four point
      triples, with the formatted first token as latitude and the formatted
      second as longitude. */
  lemma BothTokensParseWritesPoint<F>(fmt: NumberFormat<F>, sub: Prefixes.Catalog,
                                      s: string, document: string, point: nat)
    requires var tokens := JavaSplit.Split(s);
      |tokens| >= 2 && fmt.parse(tokens[0]).Some? && fmt.parse(tokens[1]).Some?
    ensures var tokens := JavaSplit.Split(s);
      Extract(fmt, sub, Some(s), document, point)
        == Success(PointTriples(VocabularyIn(sub), GeoPoint(document, point,
             fmt.show(fmt.parse(tokens[0]).value), fmt.show(fmt.parse(tokens[1]).value))))
  {
  }

  /** Fewer than two tokens, unless the only token already fails to parse,
      end in the index error the `NumberFormatException` handler does not
      catch: `coords[0]` with no token, `coords[1]` with one. */
  lemma TooFewTokensFails<F>(fmt: NumberFormat<F>, sub: Prefixes.Catalog,
                             s: string, document: string, point: nat)
    requires s != ""
    requires var tokens := JavaSplit.Split(s);
      |tokens| == 0 || (|tokens| == 1 && fmt.parse(tokens[0]).Some?)
    ensures Extract(fmt, sub, Some(s), document, point)
         == Failure(IndexOutOfBounds(|JavaSplit.Split(s)|))
  {
  }

  /** A single numeric token, with or without trailing separators ("45.5",
      "45.5;"), ends in the uncaught index error. */
  lemma SingleNumericTokenFails<F>(fmt: NumberFormat<F>, sub: Prefixes.Catalog,
                                   a: string, tail: string, document: string, point: nat)
    requires a != "" && JavaSplit.NoSeparator(a) && JavaSplit.OnlySeparators(tail)
    requires fmt.parse(a).Some?
    ensures Extract(fmt, sub, Some(a + tail), document, point) == Failure(IndexOutOfBounds(1))
  {
    JavaSplit.SplitSingleToken(a, tail);
  }

  /** Content made only of separators (";", ",,") fails reading `coords[0]`. */
  lemma OnlySeparatorsFails<F>(fmt: NumberFormat<F>, sub: Prefixes.Catalog,
                               t: string, document: string, point: nat)
    requires t != "" && JavaSplit.OnlySeparators(t)
    ensures Extract(fmt, sub, Some(t), document, point) == Failure(IndexOutOfBounds(0))
  {
    JavaSplit.SplitOnlySeparators(t);
  }

  /** Latitude comes from the first token and longitude from the second;
      whatever follows the second token is never read. */
  lemma LatitudeAndLongitudeFromLeadingTokens<F>(fmt: NumberFormat<F>, sub: Prefixes.Catalog,
      a: string, c: char, b: string, tail: string, document: string, point: nat)
    requires JavaSplit.NoSeparator(a) && JavaSplit.IsSeparator(c)
    requires JavaSplit.NoSeparator(b) && b != ""
    requires tail == "" || JavaSplit.IsSeparator(tail[0])
    requires fmt.parse(a).Some? && fmt.parse(b).Some?
    ensures Extract(fmt, sub, Some(a + [c] + b + tail), document, point)
         == Success(PointTriples(VocabularyIn(sub),
              GeoPoint(document, point, fmt.show(fmt.parse(a).value), fmt.show(fmt.parse(b).value))))
  {
    JavaSplit.SplitLeadingTokens(a, c, b, tail);
  }

  /** "45.5;-122.6" describes one point whose literals are the formatted
      latitude 45.5 and longitude -122.6. */
  lemma SemicolonPairExample<F>(fmt: NumberFormat<F>, sub: Prefixes.Catalog, document: string, point: nat)
    requires fmt.parse("45.5").Some? && fmt.parse("-122.6").Some?
    ensures Extract(fmt, sub, Some("45.5;-122.6"), document, point)
         == Success(PointTriples(VocabularyIn(sub), GeoPoint(document, point,
              fmt.show(fmt.parse("45.5").value), fmt.show(fmt.parse("-122.6").value))))
  {
    assert "45.5;-122.6" == "45.5" + [';'] + "-122.6" + "";
    LatitudeAndLongitudeFromLeadingTokens(fmt, sub, "45.5", ';', "-122.6", "", document, point);
  }

  /** Two contents whose first two tokens agree give the same output. */
  lemma LaterTokensIgnored<F>(fmt: NumberFormat<F>, sub: Prefixes.Catalog,
                              s: string, t: string, document: string, point: nat)
    requires |JavaSplit.Split(s)| >= 2 && |JavaSplit.Split(t)| >= 2
    requires JavaSplit.Split(s)[..2] == JavaSplit.Split(t)[..2]
    ensures Extract(fmt, sub, Some(s), document, point) == Extract(fmt, sub, Some(t), document, point)
  {
    var ts, tt := JavaSplit.Split(s), JavaSplit.Split(t);
    assert ts[0] == ts[..2][0] == tt[0];
    assert ts[1] == ts[..2][1] == tt[1];
  }

  /** No expanded term is a blank node. */
  lemma VocabularyHasNoBlankNode(sub: Prefixes.Catalog)
    ensures var v := VocabularyIn(sub);
      !v.related.BNode? && !v.typ.BNode? && !v.point.BNode? && !v.lat.BNode? && !v.long.BNode?
  {
  }

  lemma PointTriplesBlankNodes(v: Vocabulary, g: GeoPoint)
    requires !v.related.BNode? && !v.typ.BNode? && !v.point.BNode? && !v.lat.BNode? && !v.long.BNode?
    ensures BlankNodes(PointTriples(v, g)) == {g.node}
  {
    var ts := PointTriples(v, g);
    var b := {g.node};
    assert ts[3..][1..] == [];
    assert BlankNodes(ts[3..]) == b + BlankNodesOf(v.long) + {} + {};
    assert ts[2..][1..] == ts[3..];
    assert BlankNodes(ts[2..]) == b + BlankNodesOf(v.lat) + {} + BlankNodes(ts[3..]);
    assert ts[1..][1..] == ts[2..];
    assert BlankNodes(ts[1..]) == b + BlankNodesOf(v.typ) + BlankNodesOf(v.point) + BlankNodes(ts[2..]);
    assert BlankNodes(ts) == {} + BlankNodesOf(v.related) + b + BlankNodes(ts[1..]);
  }

  /** A successful run mentions exactly one blank node, `point`, in all
      four triples: as the object of the first and the subject of the rest. */
  lemma OneBlankNode<F>(fmt: NumberFormat<F>, sub: Prefixes.Catalog,
                        content: Option<string>, document: string, point: nat)
    requires Extract(fmt, sub, content, document, point).Success?
    requires Extract(fmt, sub, content, document, point).value != []
    ensures var ts := Extract(fmt, sub, content, document, point).value;
      && BlankNodes(ts) == {point}
      && ts[0].obj == BNode(point)
      && forall k :: 1 <= k < 4 ==> ts[k].subj == BNode(point)
  {
    var r := Extract(fmt, sub, content, document, point);
    var ts := r.value;
    var v := VocabularyIn(sub);
    assert ReadPoint(v, ts).Some?;
    var g := ReadPoint(v, ts).value;
    assert g.node == point;
    VocabularyHasNoBlankNode(sub);
    PointTriplesBlankNodes(v, g);
  }

  /** The subset `expand` needs: every prefix `run` uses. */
  const CorrectedFactory: Description := Factory.(prefixes := ["geo", "rdf", "dcterms"])

  /** `run` with the index errors guarded: fewer than two tokens write
      nothing and return normally, like an unparsable token does. */
  function ExtractChecked<F>(fmt: NumberFormat<F>, sub: Prefixes.Catalog, content: Option<string>,
                             document: string, point: nat): (r: Result<seq<Triple>, RunError>)
    ensures r.Success?
    ensures r.value == [] || r == Extract(fmt, sub, content, document, point)
  {
    var props := ContentString(content);
    if props == "" then Success([])
    else
      var coords := JavaSplit.Split(props);
      if |coords| < 2 then Success([])
      else Extract(fmt, sub, content, document, point)
  }

  /** The extractor as evidently intended: no index error escapes and every
      CURIE it writes lies in its declared subset. */
  function RunCorrected<F>(fmt: NumberFormat<F>, catalog: Prefixes.Catalog, content: Option<string>,
                           document: string, point: nat): Result<seq<Triple>, RunError>
  {
    ExtractChecked(fmt, Prefixes.CreateSubset(catalog, CorrectedFactory.prefixes), content, document, point)
  }

  /** The guard changes only the inputs that made the source fail. */
  lemma ExtractCheckedAgrees<F>(fmt: NumberFormat<F>, sub: Prefixes.Catalog, content: Option<string>,
                                document: string, point: nat)
    ensures Extract(fmt, sub, content, document, point).Success? ==>
      ExtractChecked(fmt, sub, content, document, point) == Extract(fmt, sub, content, document, point)
    ensures Extract(fmt, sub, content, document, point).Failure? ==>
      ExtractChecked(fmt, sub, content, document, point) == Success([])
  {
  }

  /** With the guard, "45.5" and "45.5;" write nothing and return normally. */
  lemma SingleNumericTokenWritesNothing<F>(fmt: NumberFormat<F>, sub: Prefixes.Catalog,
                                           a: string, tail: string, document: string, point: nat)
    requires a != "" && JavaSplit.NoSeparator(a) && JavaSplit.OnlySeparators(tail)
    ensures ExtractChecked(fmt, sub, Some(a + tail), document, point) == Success([])
  {
    JavaSplit.SplitSingleToken(a, tail);
  }

  lemma ExpandNamed(catalog: Prefixes.Catalog, names: seq<string>, c: Curie)
    requires Prefixes.NoColon(c.prefix)
    ensures ExpandTerm(Prefixes.CreateSubset(catalog, names), c.Text())
         == if c.prefix in names && c.prefix in catalog then Uri(catalog[c.prefix] + c.reference)
            else Unresolved(c.Text())
  {
    Prefixes.ExpandInSubset(catalog, names, c.prefix, c.reference);
  }

  /** As written, "dcterms:related" cannot resolve: `dcterms` is not in the
      factory's subset, so the first triple of every point carries the
      `null` predicate, whatever the catalog holds. */
  lemma RelatedPredicateUnresolved(catalog: Prefixes.Catalog)
    ensures VocabularyIn(Prefixes.CreateSubset(catalog, Factory.prefixes)).related
         == Unresolved(Related.Text())
  {
    ExpandNamed(catalog, Factory.prefixes, Related);
    assert "dcterms" !in Factory.prefixes;
  }

  predicate AllUris(v: Vocabulary) {
    v.related.Uri? && v.typ.Uri? && v.point.Uri? && v.lat.Uri? && v.long.Uri?
  }

  lemma CorrectedVocabularyResolves(catalog: Prefixes.Catalog)
    requires "geo" in catalog && "rdf" in catalog && "dcterms" in catalog
    ensures AllUris(VocabularyIn(Prefixes.CreateSubset(catalog, CorrectedFactory.prefixes)))
  {
    var names := CorrectedFactory.prefixes;
    ExpandNamed(catalog, names, Related);
    ExpandNamed(catalog, names, RdfType);
    ExpandNamed(catalog, names, GeoPointClass);
    ExpandNamed(catalog, names, GeoLat);
    ExpandNamed(catalog, names, GeoLong);
  }

  lemma PointTriplesResolved(v: Vocabulary, g: GeoPoint)
    requires AllUris(v)
    ensures forall k :: 0 <= k < |PointTriples(v, g)| ==> Resolved(PointTriples(v, g)[k])
  {
  }

  /** Whatever a run writes is resolved when every expanded term is. */
  lemma ExtractResolvedWith<F>(fmt: NumberFormat<F>, sub: Prefixes.Catalog,
                               content: Option<string>, document: string, point: nat)
    requires AllUris(VocabularyIn(sub))
    ensures forall k :: 0 <= k < |ExtractChecked(fmt, sub, content, document, point).value| ==>
      Resolved(ExtractChecked(fmt, sub, content, document, point).value[k])
  {
    var r := ExtractChecked(fmt, sub, content, document, point);
    if r.value != [] {
      var v := VocabularyIn(sub);
      var e := Extract(fmt, sub, content, document, point);
      assert ReadPoint(v, e.value).Some?;
      PointTriplesResolved(v, ReadPoint(v, e.value).value);
    }
  }

  /** With `dcterms` in the subset and the three prefixes in the catalog,
      the corrected run never fails and every triple it writes is fully
      resolved. */
  lemma CorrectedRunResolvesAll<F>(fmt: NumberFormat<F>, catalog: Prefixes.Catalog,
                                   content: Option<string>, document: string, point: nat)
    requires "geo" in catalog && "rdf" in catalog && "dcterms" in catalog
    ensures RunCorrected(fmt, catalog, content, document, point).Success?
    ensures forall k :: 0 <= k < |RunCorrected(fmt, catalog, content, document, point).value| ==>
      Resolved(RunCorrected(fmt, catalog, content, document, point).value[k])
  {
    CorrectedVocabularyResolves(catalog);
    ExtractResolvedWith(fmt, Prefixes.CreateSubset(catalog, CorrectedFactory.prefixes), content, document, point);
  }
}
