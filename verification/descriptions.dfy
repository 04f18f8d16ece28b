/** The immutable description every extractor factory carries: a unique
    name, a frozen prefix subset, weighted MIME types and an example input. */
module Descriptions {
  import opened Results

  /** A declared MIME type with its quality weight in hundredths:
      "text/html;q=0.01" is `MimeWeight("text/html", 1)`. */
  datatype MimeWeight = MimeWeight(mimeType: string, quality: nat)

  datatype Description = Description(
    name: string,
    prefixes: seq<string>,
    types: seq<MimeWeight>,
    example: Option<string>)

  /** The weight the first declaration of `mimeType` carries, if any: no
      earlier entry declares the same type. */
  function QualityOf(types: seq<MimeWeight>, mimeType: string): (q: Option<nat>)
    ensures q.None? <==> forall k :: 0 <= k < |types| ==> types[k].mimeType != mimeType
    ensures q.Some? ==> exists k :: (0 <= k < |types| && types[k] == MimeWeight(mimeType, q.value)
                                     && forall j :: 0 <= j < k ==> types[j].mimeType != mimeType)
  {
    if |types| == 0 then None
    else if types[0].mimeType == mimeType then Some(types[0].quality)
    else
      var q := QualityOf(types[1..], mimeType);
      if q.Some? then
        var k :| (0 <= k < |types[1..]| && types[1..][k] == MimeWeight(mimeType, q.value)
                  && forall j :: 0 <= j < k ==> types[1..][j].mimeType != mimeType);
        assert types[k + 1] == MimeWeight(mimeType, q.value);
        assert forall j :: 0 <= j < k + 1 ==> types[j].mimeType != mimeType by {
          forall j | 0 <= j < k + 1 ensures types[j].mimeType != mimeType {
            if j > 0 { assert types[j] == types[1..][j - 1]; }
          }
        }
        q
      else q
  }

  /** The set of MIME types a description declares. */
  function DeclaredTypes(d: Description): (ts: set<string>)
    ensures forall m :: m in ts <==> QualityOf(d.types, m).Some?
  {
    set k | 0 <= k < |d.types| :: d.types[k].mimeType
  }
}
