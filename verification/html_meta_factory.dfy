/** `HTMLMetaExtractorFactory`: the factory of the META-tag extractor, with
    its description built once at class initialisation, and object identity
    made explicit so that "a new extractor per call" and "the same
    description instance every time" can be stated. */
module HtmlMetaFactory {
  import opened Results
  import opened Descriptions

  const Name := "html-head-meta"

  const PrefixNames: seq<string> := ["sindice"]

  const ExampleInput := "example-meta.html"

  /** The values the no-argument constructor hands to its superclass. */
  const Descriptor: Description := Description(
    Name,
    PrefixNames,
    [MimeWeight("text/html", 2), MimeWeight("application/xhtml+xml", 2)],
    Some(ExampleInput))

  /** An object reference. */
  datatype Ref = Ref(address: nat)

  /** The allocator: every address below `next` has been handed out, and
      `new` hands out `next`. */
  datatype Heap = Heap(next: nat) {
    predicate Allocated(r: Ref) {
      r.address < next
    }
  }

  /** A Java `new`: a reference no earlier `new` returned. */
  function New(h: Heap): (r: (Ref, Heap))
    ensures !h.Allocated(r.0) && r.1.Allocated(r.0)
    ensures forall x :: h.Allocated(x) ==> r.1.Allocated(x)
  {
    (Ref(h.next), Heap(h.next + 1))
  }

  /** The class's static state: `descriptionInstance` is the factory object
      its initialiser built, and `description` the values that object
      carries. */
  datatype FactoryClass = FactoryClass(descriptionInstance: Ref, description: Description)

  /** Static initialisation: one `new HTMLMetaExtractorFactory()`, which
      carries the name `html-head-meta`, the single prefix `sindice`,
      text/html and application/xhtml+xml at q=0.02 each, and the example
      input `example-meta.html`. */
  function Initialize(h: Heap): (r: (FactoryClass, Heap))
    ensures !h.Allocated(r.0.descriptionInstance) && r.1.Allocated(r.0.descriptionInstance)
    ensures r.0.description.name == "html-head-meta"
    ensures r.0.description.prefixes == ["sindice"]
    ensures DeclaredTypes(r.0.description) == {"text/html", "application/xhtml+xml"}
    ensures QualityOf(r.0.description.types, "text/html") == Some(2)
    ensures QualityOf(r.0.description.types, "application/xhtml+xml") == Some(2)
    ensures r.0.description.example == Some("example-meta.html")
  {
    var (instance, h') := New(h);
    (FactoryClass(instance, Descriptor), h')
  }

  /** The two calls the factory answers. */
  datatype Call = GetDescriptionInstance | CreateExtractor

  /** One call: the static getter returns the stored instance, and
      `createExtractor` allocates a new `HTMLMetaExtractor`. */
  function Answer(cls: FactoryClass, h: Heap, call: Call): (r: (Ref, Heap))
    ensures call == GetDescriptionInstance ==> r.0 == cls.descriptionInstance && r.1 == h
    ensures call == CreateExtractor ==> !h.Allocated(r.0) && r.1.Allocated(r.0)
    ensures h.next <= r.1.next
  {
    match call
    case GetDescriptionInstance => (cls.descriptionInstance, h)
    case CreateExtractor => New(h)
  }

  /** Answers a sequence of calls in order, starting after class
      initialisation. Every description request yields the one instance
      built at initialisation; every extractor is new: different from that
      instance, from every object existing before, and from every other
      extractor handed out. */
  method Serve(cls: FactoryClass, h0: Heap, calls: seq<Call>) returns (results: seq<Ref>, h: Heap)
    requires h0.Allocated(cls.descriptionInstance)
    ensures |results| == |calls|
    ensures forall i :: 0 <= i < |calls| && calls[i] == GetDescriptionInstance ==>
      results[i] == cls.descriptionInstance
    ensures forall i :: 0 <= i < |calls| && calls[i] == CreateExtractor ==>
      !h0.Allocated(results[i]) && h.Allocated(results[i])
    ensures forall i, j :: 0 <= i < j < |calls| && calls[i] == CreateExtractor && calls[j] == CreateExtractor ==>
      results[i] != results[j]
  {
    results := [];
    h := h0;
    var n := 0;
    while n < |calls|
      invariant 0 <= n <= |calls| && |results| == n
      invariant h0.next <= h.next
      invariant forall i :: 0 <= i < n && calls[i] == GetDescriptionInstance ==>
        results[i] == cls.descriptionInstance
      invariant forall i :: 0 <= i < n && calls[i] == CreateExtractor ==>
        h0.next <= results[i].address < h.next
      invariant forall i, j :: 0 <= i < j < n && calls[i] == CreateExtractor && calls[j] == CreateExtractor ==>
        results[i].address < results[j].address
    {
      var (r, h') := Answer(cls, h, calls[n]);
      results := results + [r];
      h := h';
      n := n + 1;
    }
  }
}
