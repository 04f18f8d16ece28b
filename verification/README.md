# ICBM geo-coordinates and extractor descriptions

A Dafny model of two small pieces of Any23, the library that turns HTML
pages into RDF triples.

- The **ICBM extractor** reads the `content` of an `ICBM` or
  `geo.position` META tag, splits it on `;` or `,`, parses the first two
  tokens as numbers and writes four triples about one fresh blank node: the
  document is `dcterms:related` to a `geo:Point` with `geo:lat` and
  `geo:long` literals. It writes nothing for an empty value or an
  unparsable token, and ends in an uncaught index error when there is no
  token, or when the only token parses (`Icbm.Extract`, `Icbm.Run`).
- **Extractor descriptions** are immutable records: a name, a prefix subset,
  weighted MIME types (quality in hundredths, so `q=0.01` is `1`) and an
  example input. The ICBM description (`Icbm.Factory`) and the
  `HTMLMetaExtractorFactory` description (`HtmlMetaFactory.Descriptor`)
  are modelled, together with the object identity of `createExtractor`
  (a new extractor every call) and `getDescriptionInstance` (the one
  instance built at class initialisation).

Modules, one per concern:

| file | module | what |
|---|---|---|
| results.dfy | `Results` | `Option` (also Java `null`) and `Result` (normal return or uncaught exception) |
| java_split.dfy | `JavaSplit` | `String.split("[;,]")` with limit 0, and its partner `Join` |
| prefixes.dfy | `Prefixes` | CURIE parsing, `createSubset`, `expand` |
| rdf.dfy | `Rdf` | terms and triples |
| descriptions.dfy | `Descriptions` | the description record and its MIME weights |
| icbm.dfy | `Icbm` | `run`, its vocabulary, the description, the corrected variant |
| html_meta_factory.dfy | `HtmlMetaFactory` | the META factory's constants and object identity |
| description_identity.dfy | `DescriptionIdentity` | the two descriptions compared |

Inputs the model takes as parameters: the META value as `Option<string>`
(`None` when no tag matches), the document URI, the blank-node id the
fresh value factory hands out, the popular-prefix catalog, and
`Float.parseFloat` / `Float.toString` as a `NumberFormat` pair of
functions (`parse` answers `None` where the JDK throws
`NumberFormatException`).

The handler at lines 41-42 of `ICBMExtractor.java` returns silently when a
token is not a number, so malformed content is meant to write nothing. The
code still raises an uncaught `ArrayIndexOutOfBoundsException` when there is
no token, or only one token and it parses. The model follows the code
(`Icbm.Extract`) and records the gap under Findings.

## Model

| member | source | states |
|---|---|---|
| JavaSplit.Fields | library/src/main/java/org/deri/any23/extractor/html/ICBMExtractor.java:36 | there is at least one field and no field contains ';' or ',' |
| JavaSplit.DropTrailingEmpty | library/src/main/java/org/deri/any23/extractor/html/ICBMExtractor.java:36 | the kept tokens are a prefix of the fields, the last kept token is non-empty, and every dropped field is empty |
| JavaSplit.Split | library/src/main/java/org/deri/any23/extractor/html/ICBMExtractor.java:36 | no token returned by the split contains a separator |
| JavaSplit.JoinFields | library/src/main/java/org/deri/any23/extractor/html/ICBMExtractor.java:36 | joining the fields with ';' rebuilds the input with every ',' written as ';' |
| JavaSplit.FieldsJoin | library/src/main/java/org/deri/any23/extractor/html/ICBMExtractor.java:36 | splitting a ';'-join of separator-free fields gives the same fields back |
| JavaSplit.FieldsAfterSeparator | library/src/main/java/org/deri/any23/extractor/html/ICBMExtractor.java:36 | a separator after a separator-free prefix ends the first field there |
| JavaSplit.SplitIgnoresSeparatorKind | library/src/main/java/org/deri/any23/extractor/html/ICBMExtractor.java:36 | two inputs that differ only in which of ';' and ',' stands where split to the same tokens |
| JavaSplit.SplitSingleToken | library/src/main/java/org/deri/any23/extractor/html/ICBMExtractor.java:36 | one non-empty token followed only by separators ("45.5;") splits to that token alone, since trailing empty fields are dropped |
| JavaSplit.SplitOnlySeparators | library/src/main/java/org/deri/any23/extractor/html/ICBMExtractor.java:36 | content of separators only (";") splits to no token at all |
| JavaSplit.SplitLeadingTokens | library/src/main/java/org/deri/any23/extractor/html/ICBMExtractor.java:36 | in `a c b tail` the first two tokens are `a` and `b`, whatever the tail holds |
| Prefixes.FirstColon | library/src/main/java/org/deri/any23/extractor/html/ICBMExtractor.java:54-56 | finds the first ':' of a CURIE, or reports that it has none |
| Prefixes.ParseCurie | library/src/main/java/org/deri/any23/extractor/html/ICBMExtractor.java:54-56 | a CURIE is cut into a colon-free prefix and a reference that recombine to it; it fails exactly when there is no ':' |
| Prefixes.ParseCurieRoundTrip | library/src/main/java/org/deri/any23/extractor/html/ICBMExtractor.java:54-56 | parsing `prefix:reference` gives back that prefix and reference |
| Prefixes.CreateSubset | library/src/main/java/org/deri/any23/extractor/html/ICBMExtractor.java:65 | the subset holds exactly the named prefixes the catalog knows, each with its catalog namespace |
| Prefixes.Expand | library/src/main/java/org/deri/any23/extractor/html/ICBMExtractor.java:54-56 | an expansion exists only for a CURIE whose prefix lies in the subset |
| Prefixes.ExpandInSubset | library/src/main/java/org/deri/any23/extractor/html/ICBMExtractor.java:54-56 | a CURIE resolves in a created subset iff its prefix was named and is in the catalog, and then to the namespace followed by the reference |
| Icbm.ExpandTerm | library/src/main/java/org/deri/any23/extractor/html/ICBMExtractor.java:54-56 | an expanded term is a URI, or the unresolved CURIE itself (the `null` expansion) |
| Icbm.ExpandNamed | library/src/main/java/org/deri/any23/extractor/html/ICBMExtractor.java:54-56 | a constant CURIE of the extractor expands to its catalog namespace plus reference exactly when its prefix is declared and catalogued |
| Icbm.ReadPoint | library/src/main/java/org/deri/any23/extractor/html/ICBMExtractor.java:48-51 | whatever reads back as a point is exactly the four point triples for it |
| Icbm.ReadPointRoundTrip | library/src/main/java/org/deri/any23/extractor/html/ICBMExtractor.java:48-51 | the four point triples read back as the point they were written from |
| Icbm.VocabularyIn | library/src/main/java/org/deri/any23/extractor/html/ICBMExtractor.java:48-51 | each of the five terms `run` expands is a URI or its own unresolved CURIE |
| Icbm.Extract | library/src/main/java/org/deri/any23/extractor/html/ICBMExtractor.java:29-52 | `run` writes nothing or exactly four triples; it fails only on non-empty content with fewer than two tokens, at the index equal to the token count; four triples describe `point` for the document with the formatted first token as latitude and the formatted second token as longitude |
| Icbm.Run | library/src/main/java/org/deri/any23/extractor/html/ICBMExtractor.java:29-65 | the extractor as built, with expansion in the subset of line 65: every point it writes has the unresolved "dcterms:related" as the predicate of its first triple |
| Icbm.EmptyContentWritesNothing | library/src/main/java/org/deri/any23/extractor/html/ICBMExtractor.java:33-34 | an empty or missing META value writes nothing and returns normally |
| Icbm.SeparatorsInterchangeable | library/src/main/java/org/deri/any23/extractor/html/ICBMExtractor.java:36 | swapping ';' and ',' anywhere in the content gives the same outcome |
| Icbm.UnparsableTokenWritesNothing | library/src/main/java/org/deri/any23/extractor/html/ICBMExtractor.java:38-43 | a first or second token that fails to parse writes nothing and no exception escapes |
| Icbm.BothTokensParseWritesPoint | library/src/main/java/org/deri/any23/extractor/html/ICBMExtractor.java:39-51 | whenever the first two tokens both parse, `run` writes the four point triples, with the formatted first token as latitude and the formatted second as longitude |
| Icbm.TooFewTokensFails | library/src/main/java/org/deri/any23/extractor/html/ICBMExtractor.java:36-41 | with no token, or one token that parses, `run` fails with the index error at `coords[0]` or `coords[1]` |
| Icbm.SingleNumericTokenFails | library/src/main/java/org/deri/any23/extractor/html/ICBMExtractor.java:36-41 | "45.5" and "45.5;" end in the uncaught index error for `coords[1]` |
| Icbm.OnlySeparatorsFails | library/src/main/java/org/deri/any23/extractor/html/ICBMExtractor.java:36-39 | content of separators only ends in the uncaught index error for `coords[0]` |
| Icbm.LatitudeAndLongitudeFromLeadingTokens | library/src/main/java/org/deri/any23/extractor/html/ICBMExtractor.java:39-51 | latitude comes from the first token, longitude from the second, and nothing after the second token matters |
| Icbm.SemicolonPairExample | library/src/main/java/org/deri/any23/extractor/html/ICBMExtractor.java:36-51 | "45.5;-122.6" yields one point with the formatted 45.5 as latitude and -122.6 as longitude |
| Icbm.LaterTokensIgnored | library/src/main/java/org/deri/any23/extractor/html/ICBMExtractor.java:39-40 | two contents whose first two tokens agree give the same outcome |
| Icbm.OneBlankNode | library/src/main/java/org/deri/any23/extractor/html/ICBMExtractor.java:45-51 | a successful run mentions exactly one blank node, `point`: object of the first triple, subject of the other three |
| Icbm.PointTriplesBlankNodes | library/src/main/java/org/deri/any23/extractor/html/ICBMExtractor.java:47-51 | the four point triples mention no blank node but the point's own |
| Icbm.RelatedPredicateUnresolved | library/src/main/java/org/deri/any23/extractor/html/ICBMExtractor.java:48 | as written, `dcterms:related` stays unresolved whatever the catalog holds, because the subset of line 65 names only `geo` and `rdf` |
| Icbm.CorrectedVocabularyResolves | library/src/main/java/org/deri/any23/extractor/html/ICBMExtractor.java:48-51 | with `dcterms` added to the subset, all five CURIEs resolve to URIs |
| Icbm.ExtractChecked | library/src/main/java/org/deri/any23/extractor/html/ICBMExtractor.java:36-43 | the guarded `run` never fails, and when it writes triples they are those of `run` |
| Icbm.ExtractCheckedAgrees | library/src/main/java/org/deri/any23/extractor/html/ICBMExtractor.java:36-43 | the guard changes exactly the inputs on which `run` failed, which now write nothing |
| Icbm.SingleNumericTokenWritesNothing | library/src/main/java/org/deri/any23/extractor/html/ICBMExtractor.java:36-43 | with the guard, "45.5" and "45.5;" write nothing and return normally |
| Icbm.CorrectedRunResolvesAll | library/src/main/java/org/deri/any23/extractor/html/ICBMExtractor.java:48-51 | the corrected run never fails and every triple it writes is fully resolved |
| Descriptions.QualityOf | library/src/main/java/org/deri/any23/extractor/html/ICBMExtractor.java:66 | a MIME type has a weight iff it is declared, and the weight is that of its first declaration: no earlier entry declares the same type |
| Descriptions.DeclaredTypes | core/src/main/java/org/apache/any23/extractor/html/HTMLMetaExtractorFactory.java:45 | a MIME type is declared iff it has a weight |
| DescriptionIdentity.IcbmDescriptionValues | library/src/main/java/org/deri/any23/extractor/html/ICBMExtractor.java:62-68 | the ICBM description is named `html-head-icbm`, has subset {geo, rdf}, declares text/html and application/xhtml+xml at q=0.01 each, and has no example input |
| DescriptionIdentity.MetaDescriptionValues | core/src/main/java/org/apache/any23/extractor/html/HTMLMetaExtractorFactory.java:35-46 | the META description is named `html-head-meta`, has the one prefix `sindice`, declares text/html and application/xhtml+xml at q=0.02 each, and names `example-meta.html` as example input |
| DescriptionIdentity.MetaOutweighsIcbm | core/src/main/java/org/apache/any23/extractor/html/HTMLMetaExtractorFactory.java:45 | the two names differ, both declare the same MIME types, and on each the META weight (0.02) is above the ICBM weight (0.01) |
| HtmlMetaFactory.New | core/src/main/java/org/apache/any23/extractor/html/HTMLMetaExtractorFactory.java:51 | `new` returns a reference that did not exist before and exists afterwards, and keeps every existing one |
| HtmlMetaFactory.Initialize | core/src/main/java/org/apache/any23/extractor/html/HTMLMetaExtractorFactory.java:35-47 | class initialisation builds the description instance as a new object, and that object carries `html-head-meta`, the single prefix `sindice`, text/html and application/xhtml+xml at q=0.02 each, and `example-meta.html` |
| HtmlMetaFactory.Answer | core/src/main/java/org/apache/any23/extractor/html/HTMLMetaExtractorFactory.java:50-55 | `getDescriptionInstance` returns the stored instance and allocates nothing; `createExtractor` returns a new object |
| HtmlMetaFactory.Serve | core/src/main/java/org/apache/any23/extractor/html/HTMLMetaExtractorFactory.java:39-55 | over any sequence of calls, every description request returns the instance built at initialisation, and every extractor is new: unlike any earlier object and unlike every other extractor |

## Left out

- `DomUtils.find` and its XPath query are not part of this model: the META value is an input. No match is `None` and is treated as the empty string, the string value of an empty node-set in section 4.2 of XPath 1.0.
- `Float.parseFloat` and `Float.toString` are abstract (`NumberFormat`): floating-point syntax, rounding and formatting are not modelled.
- `ExtractionResult.writeTriple` is not part of this model: the written triples are the returned sequence, and what a writer does with an unresolved (`null`) term is outside it.
- `Prefixes.expand` and `PopularPrefixes` are not part of this model: the catalog is a parameter, a CURIE is cut at its first ':', and an undeclared prefix is assumed to give `null` rather than an exception.
- The value factory's blank-node ids are not modelled: the id is the parameter `point`.
- `SimpleExtractorFactory`, MIME quality-suffix parsing and registry ranking are not part of this model: each declaration string is recorded as a (type, weight in hundredths) pair.
- `ICBMExtractor.getDescription` (lines 58-60) only returns the `factory` constant, which is `Icbm.Factory` itself; it has no member of its own.
- `HTMLMetaExtractor` itself is not part of this model: `createExtractor` is modelled only by the identity of the object it returns.
- `IOException` and `ExtractionException` in the signature of `run` are never raised by its own code, so they are not modelled.
- The servlet and its tests are not modelled.

## Findings

| source | as written | input that shows it | evidently intended | confidence | as-written member | corrected member |
|---|---|---|---|---|---|---|
| library/src/main/java/org/deri/any23/extractor/html/ICBMExtractor.java:36-43 | `coords[0]` and `coords[1]` are read inside a handler that catches only `NumberFormatException`, so missing tokens raise an uncaught index error | "45.5", "45.5;" (index 1) and ";" (index 0) | malformed content writes nothing and returns normally, like an unparsable token | high, not executed | Icbm.SingleNumericTokenFails | Icbm.ExtractChecked |
| library/src/main/java/org/deri/any23/extractor/html/ICBMExtractor.java:48 | `dcterms:related` is expanded against the subset created at line 65, which names only `geo` and `rdf` | any content that parses, such as "45.5;-122.6" | every CURIE the extractor writes resolves within its declared subset | medium, not executed; what `Prefixes.expand` does with an undeclared prefix is not part of this model | Icbm.RelatedPredicateUnresolved | Icbm.CorrectedRunResolvesAll |

`Icbm.RunCorrected` combines both corrections: it uses `Icbm.ExtractChecked`
with the subset of `Icbm.CorrectedFactory` (`geo`, `rdf`, `dcterms`).
