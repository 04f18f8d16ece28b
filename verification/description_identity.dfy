/** The two extractor descriptions side by side: distinct names, and the
    META extractor weighted above the ICBM extractor on every MIME type
    both declare. */
module DescriptionIdentity {
  import opened Results
  import opened Descriptions
  import Icbm
  import HtmlMetaFactory

  /** The ICBM description: name, prefix subset and q=0.01 on both types. */
  lemma IcbmDescriptionValues()
    ensures Icbm.Factory.name == "html-head-icbm"
    ensures Icbm.Factory.prefixes == ["geo", "rdf"]
    ensures DeclaredTypes(Icbm.Factory) == {"text/html", "application/xhtml+xml"}
    ensures QualityOf(Icbm.Factory.types, "text/html") == Some(1)
    ensures QualityOf(Icbm.Factory.types, "application/xhtml+xml") == Some(1)
    ensures Icbm.Factory.example == None
  {
  }

  /** The META description: name, the single prefix `sindice`, q=0.02 on
      both types and the example input. */
  lemma MetaDescriptionValues()
    ensures HtmlMetaFactory.Descriptor.name == "html-head-meta"
    ensures HtmlMetaFactory.Descriptor.prefixes == ["sindice"]
    ensures DeclaredTypes(HtmlMetaFactory.Descriptor) == {"text/html", "application/xhtml+xml"}
    ensures QualityOf(HtmlMetaFactory.Descriptor.types, "text/html") == Some(2)
    ensures QualityOf(HtmlMetaFactory.Descriptor.types, "application/xhtml+xml") == Some(2)
    ensures HtmlMetaFactory.Descriptor.example == Some("example-meta.html")
  {
  }

  /** The names differ, both declare the same MIME types, and on each of
      them the META weight is strictly above the ICBM weight. */
  lemma MetaOutweighsIcbm(mimeType: string)
    requires mimeType in DeclaredTypes(Icbm.Factory)
    ensures Icbm.Factory.name != HtmlMetaFactory.Descriptor.name
    ensures DeclaredTypes(Icbm.Factory) == DeclaredTypes(HtmlMetaFactory.Descriptor)
    ensures QualityOf(Icbm.Factory.types, mimeType).value
          < QualityOf(HtmlMetaFactory.Descriptor.types, mimeType).value
  {
    IcbmDescriptionValues();
    MetaDescriptionValues();
  }
}
