/** An EONET category: a decoded record plus the events attached to it on the device. */
module EoCategory {
  import opened Optional
  import opened Decimal
  import opened Json
  import opened EoEvent

  datatype EOCategory = EOCategory(
    identifier: int,
    name: string,
    description: string,
    events: seq<EOEvent>)

  const CategoriesEndpoint: string := "/categories"

  /** The path of the category's event list: the categories endpoint, '/', the decimal identifier. */
  function Endpoint(c: EOCategory): string {
    CategoriesEndpoint + "/" + IntToString(c.identifier)
  }

  /** The endpoint reads back as "/categories/" followed by the identifier. */
  lemma EndpointShape(c: EOCategory)
    ensures |Endpoint(c)| > 12 && Endpoint(c)[..12] == "/categories/"
    ensures ParseInt(Endpoint(c)[12..]) == Some(c.identifier)
  {
    assert Endpoint(c)[12..] == IntToString(c.identifier);
    ParseIntToString(c.identifier);
  }

  /** Two categories share an endpoint exactly when they share an identifier. */
  lemma EndpointIdentifies(a: EOCategory, b: EOCategory)
    ensures Endpoint(a) == Endpoint(b) <==> a.identifier == b.identifier
  {
    EndpointShape(a);
    EndpointShape(b);
  }

  /** Swift's `==` on categories: identifiers only. */
  predicate SameCategory(a: EOCategory, b: EOCategory) {
    a.identifier == b.identifier
  }

  /** Name, description and events play no part in category equality. */
  lemma SameCategoryIgnoresContents(c: EOCategory, name: string, description: string, events: seq<EOEvent>)
    ensures SameCategory(c, c.(name := name, description := description, events := events))
    ensures forall d :: SameCategory(c, d) <==> c.identifier == d.identifier
  {
  }

  /** Category equality is an equivalence relation. */
  lemma SameCategoryEquivalence(a: EOCategory, b: EOCategory, c: EOCategory)
    ensures SameCategory(a, a)
    ensures SameCategory(a, b) ==> SameCategory(b, a)
    ensures SameCategory(a, b) && SameCategory(b, c) ==> SameCategory(a, c)
  {
  }

  /**
    The decoder synthesised from the coding keys: "id" gives the identifier,
    "title" the name and "description" the description. Any other key,
    "events" included, is ignored, so `events` keeps its initial value `[]`.
    A missing key or a value of the wrong type fails the decode.
  */
  function DecodeCategory(json: JsonValue): (r: Option<EOCategory>)
    ensures r.Some? ==> r.value.events == []
    ensures r.Some? <==> json.JObject? && "id" in json.fields && json.fields["id"].JNumber?
                         && HasString(json.fields, "title") && HasString(json.fields, "description")
  {
    match json
    case JObject(fields) =>
      if "id" in fields && fields["id"].JNumber? && HasString(fields, "title") && HasString(fields, "description")
      then Some(EOCategory(fields["id"].n, StringField(fields, "title"), StringField(fields, "description"), []))
      else None
    case _ => None
  }

  /** The JSON record EONET sends for a category (plus whatever extra keys). */
  function CategoryJson(c: EOCategory, extra: map<string, JsonValue>): JsonValue {
    JObject(extra + map["id" := JNumber(c.identifier), "title" := JString(c.name),
                        "description" := JString(c.description)])
  }

  /** Decoding recovers the record's fields, and never any events. */
  lemma DecodeCategoryJson(c: EOCategory, extra: map<string, JsonValue>)
    ensures DecodeCategory(CategoryJson(c, extra)) == Some(c.(events := []))
  {
    var fields := CategoryJson(c, extra).fields;
    assert fields["id"] == JNumber(c.identifier);
    assert fields["title"] == JString(c.name);
    assert fields["description"] == JString(c.description);
  }
}
