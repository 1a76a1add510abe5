/** The decision layer shared by the `ServiceRecord` class and the older
    module-level functions: resolving the service protocol, the
    capabilities key and URL, the licence, the INSPIRE theme and the
    dataset identifiers, building the keyword, thumbnail, bounding-box and
    contact groups, and assembling the output record. The two copies
    differ only in their service-type table, so everything that consults
    the table takes it as a parameter. */
module Extraction {
  import opened Wrappers
  import opened Strings
  import opened UrlParse
  import opened Xml

  /** The exceptions a resolver raises. Any of them aborts the record. */
  datatype Error =
    | UnknownProtocol(protocol: Option<string>)    // ValueError: protocol not in the service-type table
    | InvalidCapabilitiesUrl(url: Option<string>)  // ValueError: linkage URL fails is_url
    | LicenseUndetermined                          // ValueError: fewer than two profile-1.2 nodes
    | InvalidLicenseUrl(url: Option<string>)       // ValueError: licence URL fails is_url
    | InvalidOperatesOnHref(href: string)          // ValueError raised by urlparse on the operatesOn href
    | MissingQueryParameter(name: string)          // KeyError: the href's query has no such parameter

  /** A service-type table: protocol identifier to short service code. */
  type ServiceTypes = map<string, string>

  // -----------------------------------------------------------------------
  // Protocol and service type
  // -----------------------------------------------------------------------

  /** The online resource's protocol: the `gco:CharacterString` encoding,
      or the `gmx:Anchor` encoding when the former gives None. */
  function ResolvedProtocol(doc: Document): (r: Option<string>)
    ensures SingleValue(doc, ProtocolCharacterString).Some? ==> r == SingleValue(doc, ProtocolCharacterString)
    ensures SingleValue(doc, ProtocolCharacterString).None? ==> r == SingleValue(doc, ProtocolAnchor)
    ensures r.Some? <==> SingleValue(doc, ProtocolCharacterString).Some? || SingleValue(doc, ProtocolAnchor).Some?
  {
    var characterString := SingleValue(doc, ProtocolCharacterString);
    if characterString.None? then SingleValue(doc, ProtocolAnchor) else characterString
  }

  /** `get_ogc_servicetype`: the table's code for the resolved protocol;
      an absent protocol or one the table lacks raises. */
  function OgcServiceType(table: ServiceTypes, doc: Document): (r: Result<string, Error>)
    ensures r.Ok? <==> ResolvedProtocol(doc).Some? && ResolvedProtocol(doc).value in table
    ensures r.Ok? ==> r.value == table[ResolvedProtocol(doc).value] && r.value in table.Values
    ensures r.Err? ==> r.error == UnknownProtocol(ResolvedProtocol(doc))
  {
    var protocol := ResolvedProtocol(doc);
    if protocol.Some? && protocol.value in table then Ok(table[protocol.value])
    else Err(UnknownProtocol(protocol))
  }

  /** When the CharacterString encoding gives a protocol, the Anchor
      encoding is never consulted: documents that differ only there
      resolve alike. */
  lemma CharacterStringProtocolWins(table: ServiceTypes, doc: Document, other: Document)
    requires doc.Texts(ProtocolCharacterString) == other.Texts(ProtocolCharacterString)
    requires SingleValue(doc, ProtocolCharacterString).Some?
    ensures OgcServiceType(table, doc) == OgcServiceType(table, other)
    ensures ResolvedProtocol(doc) == SingleValue(doc, ProtocolCharacterString)
  {
  }

  /** When the CharacterString encoding gives None, the Anchor encoding
      alone decides. */
  lemma AnchorProtocolFallback(table: ServiceTypes, doc: Document, other: Document)
    requires SingleValue(doc, ProtocolCharacterString).None?
    requires SingleValue(other, ProtocolCharacterString).None?
    requires doc.Texts(ProtocolAnchor) == other.Texts(ProtocolAnchor)
    ensures OgcServiceType(table, doc) == OgcServiceType(table, other)
    ensures ResolvedProtocol(doc) == SingleValue(doc, ProtocolAnchor)
  {
  }

  // -----------------------------------------------------------------------
  // Capabilities key and URL
  // -----------------------------------------------------------------------

  const CapabilitiesKeyPrefix: string := "service_capabilities_url_"

  predicate IsCapabilitiesKey(key: string) {
    StartsWith(key, CapabilitiesKeyPrefix)
  }

  /** `get_service_cap_key`: the fixed prefix followed by the lower-cased
      service code. */
  function ServiceCapKey(code: string): (key: string)
    ensures IsCapabilitiesKey(key)
    ensures key[|CapabilitiesKeyPrefix|..] == Lower(code)
  {
    var key := CapabilitiesKeyPrefix + Lower(code);
    assert key[..|CapabilitiesKeyPrefix|] == CapabilitiesKeyPrefix;
    key
  }

  /** Distinct service codes give distinct keys (codes carry no
      lower-case letters, as every code in both tables). */
  lemma ServiceCapKeyInjective(a: string, b: string)
    requires NoAsciiLower(a) && NoAsciiLower(b)
    requires ServiceCapKey(a) == ServiceCapKey(b)
    ensures a == b
  {
    assert Lower(a) == ServiceCapKey(a)[|CapabilitiesKeyPrefix|..];
    LowerInjective(a, b);
  }

  lemma ServiceCapKeyWms()
    ensures ServiceCapKey("WMS") == "service_capabilities_url_wms"
  {
    assert Lower("WMS") == "wms";
  }

  /** `get_service_capabilities_url`: the first linkage URL, returned as
      it is when it passes `is_url`; otherwise it raises. */
  function CapabilitiesUrl(doc: Document): (r: Result<string, Error>)
    ensures r.Ok? <==> IsUrl(SingleValue(doc, CapabilitiesLinkage))
    ensures r.Ok? ==> SingleValue(doc, CapabilitiesLinkage) == Some(r.value)
    ensures r.Err? ==> r.error == InvalidCapabilitiesUrl(SingleValue(doc, CapabilitiesLinkage))
  {
    var url := SingleValue(doc, CapabilitiesLinkage);
    if IsUrl(url) then Ok(url.value) else Err(InvalidCapabilitiesUrl(url))
  }

  /** A linkage such as "https://example.com/wms" is accepted unchanged;
      "not-a-url" is refused. */
  lemma CapabilitiesUrlExamples(doc: Document, other: Document)
    requires SingleValue(doc, CapabilitiesLinkage) == Some("https" + "://" + "example.com" + "/wms")
    requires SingleValue(other, CapabilitiesLinkage) == Some("not-a-url")
    ensures CapabilitiesUrl(doc) == Ok("https" + "://" + "example.com" + "/wms")
    ensures CapabilitiesUrl(other) == Err(InvalidCapabilitiesUrl(Some("not-a-url")))
  {
    ExampleServiceUrl();
    NotAUrl();
  }

  // -----------------------------------------------------------------------
  // INSPIRE theme
  // -----------------------------------------------------------------------

  /** `get_inspire_theme_url`: the first theme keyword's href with every
      "http://" rewritten to "https://"; None and "" pass through. */
  function InspireThemeUrl(doc: Document): (r: Option<string>)
    ensures SingleAttribute(doc, InspireThemeHref).None? ==> r.None?
    ensures SingleAttribute(doc, InspireThemeHref).Some? ==> r.Some? && !Contains(r.value, Insecure)
    ensures SingleAttribute(doc, InspireThemeHref).Some? && !Contains(SingleAttribute(doc, InspireThemeHref).value, Insecure)
            ==> r == SingleAttribute(doc, InspireThemeHref)
    ensures SingleAttribute(doc, InspireThemeHref).Some? && SingleAttribute(doc, InspireThemeHref).value != ""
            ==> r == Some(ReplaceAll(SingleAttribute(doc, InspireThemeHref).value, Insecure, Secure))
    ensures SingleAttribute(doc, InspireThemeHref) == Some("") ==> r == Some("")
  {
    var uri := SingleAttribute(doc, InspireThemeHref);
    if uri.Some? && uri.value != "" then
      var rewritten := ReplaceAll(uri.value, Insecure, Secure);
      RewriteLeavesNoInsecure(uri.value);
      assert !Contains(uri.value, Insecure) ==> rewritten == uri.value by {
        if !Contains(uri.value, Insecure) {
          ReplaceAllAbsent(uri.value, Insecure, Secure);
        }
      }
      Some(rewritten)
    else
      assert uri.Some? ==> !OccursAt(uri.value, Insecure, 0);
      uri
  }

  /** An href whose first "http://" follows a prefix without an 'h' comes
      back with that prefix, then "https://", then its rest rewritten. */
  lemma InspireThemeUpgraded(doc: Document, prefix: string, rest: string)
    requires SingleAttribute(doc, InspireThemeHref) == Some(prefix + Insecure + rest)
    requires 'h' !in prefix
    ensures InspireThemeUrl(doc) == Some(prefix + Secure + ReplaceAll(rest, Insecure, Secure))
  {
    assert |prefix + Insecure + rest| > 0;
    RewriteAfterPrefix(prefix, rest);
  }

  // -----------------------------------------------------------------------
  // Licence
  // -----------------------------------------------------------------------

  /** The `{url, description}` result of `get_license`. */
  datatype License = License(url: string, description: Option<string>)

  /** `get_license`: a profile-2.0 anchor href wins, with the first
      anchor's text as description; otherwise the first two profile-1.2
      nodes give description and URL by position, and fewer than two
      raise. Either way the URL must pass `is_url`. */
  function LicenseOf(doc: Document): (r: Result<License, Error>)
    ensures r.Ok? ==> IsUrl(Some(r.value.url))
    ensures |doc.Attributes(LicenseAnchorHref)| > 0 ==>
              var href := doc.Attributes(LicenseAnchorHref)[0];
              && (r.Ok? <==> IsUrl(Some(href)))
              && (r.Ok? ==> r.value == License(href, SingleValue(doc, LicenseAnchor)))
              && (r.Err? ==> r.error == InvalidLicenseUrl(Some(href)))
    ensures |doc.Attributes(LicenseAnchorHref)| == 0 && |doc.Texts(LicenseCharacterString)| <= 1 ==>
              r == Err(LicenseUndetermined)
    ensures |doc.Attributes(LicenseAnchorHref)| == 0 && |doc.Texts(LicenseCharacterString)| >= 2 ==>
              var nodes := doc.Texts(LicenseCharacterString);
              && (r.Ok? <==> IsUrl(nodes[1]))
              && (r.Ok? ==> Some(r.value.url) == nodes[1] && r.value.description == nodes[0])
              && (r.Err? ==> r.error == InvalidLicenseUrl(nodes[1]))
  {
    var hrefs := doc.Attributes(LicenseAnchorHref);
    if |hrefs| > 0 then
      if IsUrl(Some(hrefs[0])) then Ok(License(hrefs[0], SingleValue(doc, LicenseAnchor)))
      else Err(InvalidLicenseUrl(Some(hrefs[0])))
    else
      var nodes := doc.Texts(LicenseCharacterString);
      if |nodes| <= 1 then Err(LicenseUndetermined)
      else if IsUrl(nodes[1]) then Ok(License(nodes[1].value, nodes[0]))
      else Err(InvalidLicenseUrl(nodes[1]))
  }

  /** With a profile-2.0 href present the profile-1.2 nodes are never
      consulted: documents that agree on the anchors resolve alike. */
  lemma Profile20LicenseWins(doc: Document, other: Document)
    requires |doc.Attributes(LicenseAnchorHref)| > 0
    requires doc.Attributes(LicenseAnchorHref) == other.Attributes(LicenseAnchorHref)
    requires doc.Texts(LicenseAnchor) == other.Texts(LicenseAnchor)
    ensures LicenseOf(doc) == LicenseOf(other)
  {
  }

  /** `get_license`, filling its result one key at a time. */
  method GetLicense(doc: Document) returns (r: Result<License, Error>)
    ensures r == LicenseOf(doc)
  {
    var url: Option<string>;
    var description: Option<string>;
    var hrefs := doc.Attributes(LicenseAnchorHref);
    if |hrefs| > 0 {
      url := Some(hrefs[0]);
      description := SingleValue(doc, LicenseAnchor);
    } else {
      var nodes := doc.Texts(LicenseCharacterString);
      if |nodes| <= 1 {
        return Err(LicenseUndetermined);
      }
      description := nodes[0];
      url := nodes[1];
    }
    if !IsUrl(url) {
      return Err(InvalidLicenseUrl(url));
    }
    r := Ok(License(url.value, description));
  }

  // -----------------------------------------------------------------------
  // Keywords and thumbnails
  // -----------------------------------------------------------------------

  /** `get_keywords`: one entry per keyword node, in document order. */
  method GetKeywords(doc: Document) returns (keywords: seq<Option<string>>)
    ensures keywords == doc.Texts(Keyword)
  {
    var nodes := doc.Texts(Keyword);
    keywords := [];
    var i := 0;
    while i < |nodes|
      invariant 0 <= i <= |nodes|
      invariant keywords == nodes[..i]
    {
      keywords := keywords + [nodes[i]];
      i := i + 1;
    }
  }

  /** One `{file, description, filetype}` entry of `get_thumbnails`. */
  datatype Thumbnail = Thumbnail(file: Option<string>, description: Option<string>, filetype: Option<string>)

  /** The entry for one browse graphic: the first text of each of its
      three relative paths. */
  function ThumbnailOf(graphic: Graphic): Thumbnail {
    Thumbnail(FirstText(graphic.fileName), FirstText(graphic.fileDescription), FirstText(graphic.fileType))
  }

  /** One entry per browse graphic, in document order. */
  function ThumbnailsOf(doc: Document): (thumbnails: seq<Thumbnail>)
    ensures |thumbnails| == |doc.graphics|
    ensures forall i :: 0 <= i < |doc.graphics| ==>
              thumbnails[i] == Thumbnail(FirstText(doc.graphics[i].fileName),
                                         FirstText(doc.graphics[i].fileDescription),
                                         FirstText(doc.graphics[i].fileType))
  {
    seq(|doc.graphics|, i requires 0 <= i < |doc.graphics| => ThumbnailOf(doc.graphics[i]))
  }

  /** `get_thumbnails`, appending one entry per graphic. */
  method GetThumbnails(doc: Document) returns (thumbnails: seq<Thumbnail>)
    ensures thumbnails == ThumbnailsOf(doc)
  {
    thumbnails := [];
    var i := 0;
    while i < |doc.graphics|
      invariant 0 <= i <= |doc.graphics|
      invariant |thumbnails| == i
      invariant forall j :: 0 <= j < i ==> thumbnails[j] == ThumbnailOf(doc.graphics[j])
    {
      var graphic := doc.graphics[i];
      var file := FirstText(graphic.fileName);
      var description := FirstText(graphic.fileDescription);
      var filetype := FirstText(graphic.fileType);
      thumbnails := thumbnails + [Thumbnail(file, description, filetype)];
      i := i + 1;
    }
  }

  // -----------------------------------------------------------------------
  // Bounding box and contacts
  // -----------------------------------------------------------------------

  /** The `bbox` group; the decimals stay uninterpreted text. */
  datatype BoundingBox = BoundingBox(minx: Option<string>, maxx: Option<string>, maxy: Option<string>, miny: Option<string>)

  /** `get_bbox`: west is minx, east maxx, north maxy and south miny. */
  function BoundingBoxOf(doc: Document): (box: BoundingBox)
    ensures box.minx == SingleValue(doc, WestBound)
    ensures box.maxx == SingleValue(doc, EastBound)
    ensures box.maxy == SingleValue(doc, NorthBound)
    ensures box.miny == SingleValue(doc, SouthBound)
  {
    BoundingBox(SingleValue(doc, WestBound), SingleValue(doc, EastBound),
                SingleValue(doc, NorthBound), SingleValue(doc, SouthBound))
  }

  /** `get_bbox`, filling the group one corner at a time. */
  method GetBbox(doc: Document) returns (box: BoundingBox)
    ensures box == BoundingBoxOf(doc)
  {
    box := BoundingBox(None, None, None, None);
    box := box.(minx := SingleValue(doc, WestBound));
    box := box.(maxx := SingleValue(doc, EastBound));
    box := box.(maxy := SingleValue(doc, NorthBound));
    box := box.(miny := SingleValue(doc, SouthBound));
  }

  datatype Contact = Contact(organisationname: Option<string>, email: Option<string>, url: Option<string>, role: Option<string>)

  /** `get_contact`: organisation name, e-mail and URL as the first text
      of their paths under the party, the role as its first code-list
      value. */
  function ContactOf(doc: Document, party: Party): (contact: Contact)
    ensures contact.organisationname == SingleValue(doc, OrganisationName(party))
    ensures contact.email == SingleValue(doc, Email(party))
    ensures contact.url == SingleValue(doc, ContactUrl(party))
    ensures contact.role == SingleAttribute(doc, RoleCode(party))
  {
    Contact(SingleValue(doc, OrganisationName(party)), SingleValue(doc, Email(party)),
            SingleValue(doc, ContactUrl(party)), SingleAttribute(doc, RoleCode(party)))
  }

  /** `get_contact`, filling the group one entry at a time. */
  method GetContact(doc: Document, party: Party) returns (contact: Contact)
    ensures contact == ContactOf(doc, party)
  {
    contact := Contact(None, None, None, None);
    contact := contact.(organisationname := SingleValue(doc, OrganisationName(party)));
    contact := contact.(email := SingleValue(doc, Email(party)));
    contact := contact.(url := SingleValue(doc, ContactUrl(party)));
    contact := contact.(role := SingleAttribute(doc, RoleCode(party)));
  }

  // -----------------------------------------------------------------------
  // Dataset identifiers
  // -----------------------------------------------------------------------

  /** `get_operateson`: the first uuidref and the first href. */
  datatype OperatesOn = OperatesOn(uuidref: Option<string>, href: Option<string>)

  function OperatesOnOf(doc: Document): (r: OperatesOn)
    ensures r.uuidref == FirstAttribute(doc.Attributes(OperatesOnUuidref))
    ensures r.href == FirstAttribute(doc.Attributes(OperatesOnHref))
  {
    OperatesOn(SingleAttribute(doc, OperatesOnUuidref), SingleAttribute(doc, OperatesOnHref))
  }

  /** `get_operateson`, filling the pair one entry at a time. */
  method GetOperatesOn(doc: Document) returns (operatesOn: OperatesOn)
    ensures operatesOn == OperatesOnOf(doc)
  {
    operatesOn := OperatesOn(None, None);
    operatesOn := operatesOn.(uuidref := SingleAttribute(doc, OperatesOnUuidref));
    operatesOn := operatesOn.(href := SingleAttribute(doc, OperatesOnHref));
  }

  /** `get_dataset_source_identifier`: the first uuidref, or None. */
  function DatasetSourceIdentifier(doc: Document): (r: Option<string>)
    ensures r.Some? <==> |doc.Attributes(OperatesOnUuidref)| > 0
    ensures r.Some? ==> r.value == doc.Attributes(OperatesOnUuidref)[0]
  {
    OperatesOnOf(doc).uuidref
  }

  /** `get_dataset_md_identifier`: the first value of the query parameter
      "id" in the first operatesOn href. No such value raises KeyError
      (a missing href has an empty query); a href urlparse refuses raises
      its ValueError. */
  function DatasetMdIdentifier(doc: Document): (r: Result<string, Error>)
    ensures QueryOf(OperatesOnOf(doc).href).Err? ==> r.Err? && r.error.InvalidOperatesOnHref?
    ensures QueryOf(OperatesOnOf(doc).href).Ok? ==>
              var ids := ValuesOf(ParseQsl(QueryOf(OperatesOnOf(doc).href).value), "id");
              && (r.Ok? <==> ids != [])
              && (r.Ok? ==> r.value == ids[0])
              && (r.Err? ==> r.error == MissingQueryParameter("id"))
  {
    var href := OperatesOnOf(doc).href;
    match QueryOf(href)
    case Err(_) => Err(InvalidOperatesOnHref(href.value))
    case Ok(query) =>
      var params := ParseQs(query);
      if "id" in params then Ok(params["id"][0]) else Err(MissingQueryParameter("id"))
  }

  /** For an href "base?query" whose query was written from `pairs`, the
      identifier is the first "id" value among them, and without one the
      lookup raises. */
  lemma DatasetMdIdentifierFromQuery(doc: Document, base: string, pairs: seq<(string, string)>)
    requires SingleAttribute(doc, OperatesOnHref) == Some(base + "?" + FormatQuery(pairs))
    requires '?' !in base && '#' !in base && '[' !in base && ']' !in base
    requires forall k :: 0 <= k < |pairs| ==> PlainPair(pairs[k])
    requires '#' !in FormatQuery(pairs)
    requires forall i :: 0 <= i < |FormatQuery(pairs)| ==> FormatQuery(pairs)[i] !in Unsafe
    ensures ValuesOf(pairs, "id") != [] ==> DatasetMdIdentifier(doc) == Ok(ValuesOf(pairs, "id")[0])
    ensures ValuesOf(pairs, "id") == [] ==> DatasetMdIdentifier(doc) == Err(MissingQueryParameter("id"))
  {
    assert QueryOf(OperatesOnOf(doc).href) == Ok(FormatQuery(pairs)) by {
      QueryAfterMark(base, FormatQuery(pairs));
    }
    QueryRoundTrip(pairs);
  }

  /** An href "https://cat.example/csw?id=abc123" identifies dataset
      "abc123". */
  lemma DatasetMdIdentifierExample(doc: Document)
    requires SingleAttribute(doc, OperatesOnHref) == Some(ExampleCatalogue + "?" + "id" + "=" + "abc123")
    ensures DatasetMdIdentifier(doc) == Ok("abc123")
  {
    var pairs := [("id", "abc123")];
    ExampleQuery(doc, "id", "abc123");
    assert ValuesOf(pairs, "id") == ["abc123"];
    DatasetMdIdentifierFromQuery(doc, ExampleCatalogue, pairs);
  }

  /** "https://cat.example/csw?request=GetRecordById" has no "id"
      parameter, so the lookup raises. */
  lemma DatasetMdIdentifierMissingExample(doc: Document)
    requires SingleAttribute(doc, OperatesOnHref) == Some(ExampleCatalogue + "?" + "request" + "=" + "GetRecordById")
    ensures DatasetMdIdentifier(doc) == Err(MissingQueryParameter("id"))
  {
    var pairs := [("request", "GetRecordById")];
    ExampleQuery(doc, "request", "GetRecordById");
    assert ValuesOf(pairs, "id") == [];
    DatasetMdIdentifierFromQuery(doc, ExampleCatalogue, pairs);
  }

  /** The example hrefs: the catalogue address, '?' and one plain field. */
  lemma ExampleQuery(doc: Document, key: string, value: string)
    requires SingleAttribute(doc, OperatesOnHref) == Some(ExampleCatalogue + "?" + key + "=" + value)
    requires |key| > 0 && |value| > 0
    requires forall c :: c in key + value ==> IsAsciiLetter(c) || IsAsciiDigit(c)
    ensures SingleAttribute(doc, OperatesOnHref) == Some(ExampleCatalogue + "?" + FormatQuery([(key, value)]))
    ensures '?' !in ExampleCatalogue && '#' !in ExampleCatalogue
    ensures '[' !in ExampleCatalogue && ']' !in ExampleCatalogue
    ensures PlainPair((key, value))
    ensures '#' !in FormatQuery([(key, value)])
    ensures forall i :: 0 <= i < |FormatQuery([(key, value)])| ==> FormatQuery([(key, value)])[i] !in Unsafe
  {
    ExampleCatalogueIsPlain();
    FormatSinglePair(key, value);
    var q := key + "=" + value;
    assert '&' !in key && '=' !in key && '&' !in value by {
      assert forall c :: c in key ==> c in key + value;
      assert forall c :: c in value ==> c in key + value;
    }
    assert ExampleCatalogue + "?" + key + "=" + value == ExampleCatalogue + "?" + q;
    forall i | 0 <= i < |q|
      ensures q[i] != '#' && q[i] !in Unsafe
    {
      if i < |key| {
        assert q[i] == key[i] && key[i] in key + value;
      } else if i > |key| {
        assert q[i] == value[i - |key| - 1] && value[i - |key| - 1] in key + value;
      }
    }
  }

  const ExampleCatalogue: string := "https://cat.example/csw"

  lemma ExampleCatalogueIsPlain()
    ensures '?' !in ExampleCatalogue && '#' !in ExampleCatalogue
    ensures '[' !in ExampleCatalogue && ']' !in ExampleCatalogue
  {
    var base := ExampleCatalogue;
    assert forall j | 0 <= j < |base| :: base[j] !in {'?', '#', '[', ']'};
  }

  // -----------------------------------------------------------------------
  // Record assembly
  // -----------------------------------------------------------------------

  /** The keys of the output record. `KeyName` gives the text each is
      written under. */
  datatype Key =
    | InspireKey
    | InspireThemeUriKey
    | OgcServiceTypeKey
    | CapabilitiesUrlKey(code: string)
    | StandardNameKey
    | StandardVersionKey
    | IdentifierKey
    | DatestampKey
    | TitleKey
    | AbstractKey
    | DateKey(dateType: DateType)
    | KeywordsKey
    | UseLimitationsKey
    | LicenseKey
    | BboxKey
    | ServiceTypeKey
    | DatasetMdIdentifierKey
    | DatasetSourceIdentifierKey
    | ContactKey(party: Party)
    | ThumbnailsKey

  function KeyName(k: Key): string {
    match k
    case InspireKey => "inspire"
    case InspireThemeUriKey => "inspire_theme_uri"
    case OgcServiceTypeKey => "ogc_service_type"
    case CapabilitiesUrlKey(code) => ServiceCapKey(code)
    case StandardNameKey => "md_standardname"
    case StandardVersionKey => "md_standardversion"
    case IdentifierKey => "md_identifier"
    case DatestampKey => "datestamp"
    case TitleKey => "service_title"
    case AbstractKey => "service_abstract"
    case DateKey(Publication) => "service_publication_date"
    case DateKey(Revision) => "service_revision_date"
    case DateKey(Creation) => "service_creation_date"
    case KeywordsKey => "keywords"
    case UseLimitationsKey => "service_gebruiksbeperkingen"
    case LicenseKey => "service_licentie"
    case BboxKey => "bbox"
    case ServiceTypeKey => "service_type"
    case DatasetMdIdentifierKey => "dataset_md_identifier"
    case DatasetSourceIdentifierKey => "dataset_source_identifier"
    case ContactKey(ServicePointOfContact) => "service_contact"
    case ContactKey(MetadataContact) => "md_contact"
    case ThumbnailsKey => "thumbnails"
  }

  /** Only the capabilities key's text carries the capabilities prefix, so
      that key can never overwrite another. */
  lemma CapabilitiesPrefixOnlyOnCapabilitiesKey(k: Key)
    ensures IsCapabilitiesKey(KeyName(k)) <==> k.CapabilitiesUrlKey?
  {
    var p := CapabilitiesKeyPrefix;
    assert p[0] == 's' && p[8] == 'c';
    assert "service_gebruiksbeperkingen"[8] == 'g';
    assert "dataset_source_identifier"[0] == 'd';
  }

  /** A value of one output field. */
  datatype Field =
    | Flag(flag: bool)
    | Text(text: Option<string>)
    | TextList(items: seq<Option<string>>)
    | LicenseField(license: License)
    | BoxField(bbox: BoundingBox)
    | ContactField(contact: Contact)
    | ThumbnailList(thumbnails: seq<Thumbnail>)

  type Record = map<Key, Field>

  /** The keys every record has, whatever the flag and the service type. */
  const FixedKeys: set<Key> := {
    InspireKey, OgcServiceTypeKey, StandardNameKey, StandardVersionKey,
    IdentifierKey, DatestampKey, TitleKey, AbstractKey,
    DateKey(Publication), DateKey(Revision), DateKey(Creation),
    KeywordsKey, UseLimitationsKey, LicenseKey, BboxKey, ServiceTypeKey,
    DatasetMdIdentifierKey, DatasetSourceIdentifierKey,
    ContactKey(ServicePointOfContact), ContactKey(MetadataContact), ThumbnailsKey
  }

  /** The record `convert_to_dictionary` fills in, given the values of the
      four fields that can raise, written in the source's order. */
  function RecordOf(doc: Document, inspire: bool, code: string, url: string,
                    license: License, datasetId: string): Record
  {
    var flagged := map[InspireKey := Flag(inspire)];
    var head := if inspire then flagged[InspireThemeUriKey := Text(InspireThemeUrl(doc))] else flagged;
    head[OgcServiceTypeKey := Text(Some(code))]
        [CapabilitiesUrlKey(code) := Text(Some(url))]
        [StandardNameKey := Text(SingleValue(doc, StandardName))]
        [StandardVersionKey := Text(SingleValue(doc, StandardVersion))]
        [IdentifierKey := Text(SingleValue(doc, FileIdentifier))]
        [DatestampKey := Text(SingleValue(doc, DateStamp))]
        [TitleKey := Text(SingleValue(doc, Title))]
        [AbstractKey := Text(SingleValue(doc, Abstract))]
        [DateKey(Publication) := Text(SingleValue(doc, CitationDate(Publication)))]
        [DateKey(Revision) := Text(SingleValue(doc, CitationDate(Revision)))]
        [DateKey(Creation) := Text(SingleValue(doc, CitationDate(Creation)))]
        [KeywordsKey := TextList(doc.Texts(Keyword))]
        [UseLimitationsKey := Text(SingleValue(doc, UseLimitation))]
        [LicenseKey := LicenseField(license)]
        [BboxKey := BoxField(BoundingBoxOf(doc))]
        [ServiceTypeKey := Text(SingleValue(doc, ServiceTypeName))]
        [DatasetMdIdentifierKey := Text(Some(datasetId))]
        [DatasetSourceIdentifierKey := Text(DatasetSourceIdentifier(doc))]
        [ContactKey(ServicePointOfContact) := ContactField(ContactOf(doc, ServicePointOfContact))]
        [ContactKey(MetadataContact) := ContactField(ContactOf(doc, MetadataContact))]
        [ThumbnailsKey := ThumbnailList(ThumbnailsOf(doc))]
  }

  /** What `convert_to_dictionary` produces: the first resolver to raise,
      in call order, aborts it; otherwise the filled record. */
  function ConvertedRecord(table: ServiceTypes, doc: Document, inspire: bool): Result<Record, Error> {
    var code :- OgcServiceType(table, doc);
    var url :- CapabilitiesUrl(doc);
    var license :- LicenseOf(doc);
    var datasetId :- DatasetMdIdentifier(doc);
    Ok(RecordOf(doc, inspire, code, url, license, datasetId))
  }

  /** `convert_to_dictionary`, filling the record one key at a time. */
  method ConvertToDictionary(table: ServiceTypes, doc: Document, inspire: bool) returns (r: Result<Record, Error>)
    ensures r == ConvertedRecord(table, doc, inspire)
  {
    var result: Record := map[];
    result := result[InspireKey := Flag(inspire)];
    if inspire {
      result := result[InspireThemeUriKey := Text(InspireThemeUrl(doc))];
    }
    var serviceType :- OgcServiceType(table, doc);
    result := result[OgcServiceTypeKey := Text(Some(serviceType))];
    var url :- CapabilitiesUrl(doc);
    result := result[CapabilitiesUrlKey(serviceType) := Text(Some(url))];
    result := result[StandardNameKey := Text(SingleValue(doc, StandardName))];
    result := result[StandardVersionKey := Text(SingleValue(doc, StandardVersion))];
    result := result[IdentifierKey := Text(SingleValue(doc, FileIdentifier))];
    result := result[DatestampKey := Text(SingleValue(doc, DateStamp))];
    result := result[TitleKey := Text(SingleValue(doc, Title))];
    result := result[AbstractKey := Text(SingleValue(doc, Abstract))];
    result := result[DateKey(Publication) := Text(SingleValue(doc, CitationDate(Publication)))];
    result := result[DateKey(Revision) := Text(SingleValue(doc, CitationDate(Revision)))];
    result := result[DateKey(Creation) := Text(SingleValue(doc, CitationDate(Creation)))];
    var keywords := GetKeywords(doc);
    result := result[KeywordsKey := TextList(keywords)];
    result := result[UseLimitationsKey := Text(SingleValue(doc, UseLimitation))];
    var license :- GetLicense(doc);
    result := result[LicenseKey := LicenseField(license)];
    var box := GetBbox(doc);
    result := result[BboxKey := BoxField(box)];
    result := result[ServiceTypeKey := Text(SingleValue(doc, ServiceTypeName))];
    var datasetId :- DatasetMdIdentifier(doc);
    result := result[DatasetMdIdentifierKey := Text(Some(datasetId))];
    result := result[DatasetSourceIdentifierKey := Text(DatasetSourceIdentifier(doc))];
    var serviceContact := GetContact(doc, ServicePointOfContact);
    result := result[ContactKey(ServicePointOfContact) := ContactField(serviceContact)];
    var mdContact := GetContact(doc, MetadataContact);
    result := result[ContactKey(MetadataContact) := ContactField(mdContact)];
    var thumbnails := GetThumbnails(doc);
    result := result[ThumbnailsKey := ThumbnailList(thumbnails)];
    r := Ok(result);
  }

  // The filled record, a few keys at a time.

  /** Every key that does not depend on the flag or the service type is
      written. */
  lemma RecordHasFixedKeys(doc: Document, inspire: bool, code: string, url: string, license: License, datasetId: string)
    ensures forall k :: k in FixedKeys ==> k in RecordOf(doc, inspire, code, url, license, datasetId)
  {
  }

  /** Nothing else is written but the capabilities key of the service
      type and, with the flag, the theme key. */
  lemma RecordHasOnlyListedKeys(doc: Document, inspire: bool, code: string, url: string, license: License, datasetId: string)
    ensures forall k :: k in RecordOf(doc, inspire, code, url, license, datasetId) ==>
              k in FixedKeys || k == CapabilitiesUrlKey(code) || (inspire && k == InspireThemeUriKey)
  {
  }

  /** The flag is copied, and the theme key is written, holding the theme
      URL, exactly when the flag is set. */
  lemma RecordInspireFields(doc: Document, inspire: bool, code: string, url: string, license: License, datasetId: string)
    ensures var r := RecordOf(doc, inspire, code, url, license, datasetId);
            && InspireKey in r && r[InspireKey] == Flag(inspire)
            && (InspireThemeUriKey in r <==> inspire)
            && (inspire ==> r[InspireThemeUriKey] == Text(InspireThemeUrl(doc)))
  {
    var r := RecordOf(doc, inspire, code, url, license, datasetId);
    assert InspireKey in r && r[InspireKey] == Flag(inspire);
    assert InspireThemeUriKey in r <==> inspire;
  }

  /** The service code and, under the key derived from it, the
      capabilities URL. */
  lemma RecordServiceFields(doc: Document, inspire: bool, code: string, url: string, license: License, datasetId: string)
    ensures var r := RecordOf(doc, inspire, code, url, license, datasetId);
            && OgcServiceTypeKey in r && r[OgcServiceTypeKey] == Text(Some(code))
            && CapabilitiesUrlKey(code) in r && r[CapabilitiesUrlKey(code)] == Text(Some(url))
  {
  }

  lemma RecordStandardFields(doc: Document, inspire: bool, code: string, url: string, license: License, datasetId: string)
    ensures var r := RecordOf(doc, inspire, code, url, license, datasetId);
            && StandardNameKey in r && r[StandardNameKey] == Text(SingleValue(doc, StandardName))
            && StandardVersionKey in r && r[StandardVersionKey] == Text(SingleValue(doc, StandardVersion))
  {
  }

  lemma RecordIdentityFields(doc: Document, inspire: bool, code: string, url: string, license: License, datasetId: string)
    ensures var r := RecordOf(doc, inspire, code, url, license, datasetId);
            && IdentifierKey in r && r[IdentifierKey] == Text(SingleValue(doc, FileIdentifier))
            && DatestampKey in r && r[DatestampKey] == Text(SingleValue(doc, DateStamp))
  {
  }

  lemma RecordCitationFields(doc: Document, inspire: bool, code: string, url: string, license: License, datasetId: string)
    ensures var r := RecordOf(doc, inspire, code, url, license, datasetId);
            && TitleKey in r && r[TitleKey] == Text(SingleValue(doc, Title))
            && AbstractKey in r && r[AbstractKey] == Text(SingleValue(doc, Abstract))
  {
  }

  lemma RecordDateFields(doc: Document, inspire: bool, code: string, url: string, license: License, datasetId: string)
    ensures var r := RecordOf(doc, inspire, code, url, license, datasetId);
            forall t: DateType :: DateKey(t) in r && r[DateKey(t)] == Text(SingleValue(doc, CitationDate(t)))
  {
    var r := RecordOf(doc, inspire, code, url, license, datasetId);
    forall t: DateType
      ensures DateKey(t) in r && r[DateKey(t)] == Text(SingleValue(doc, CitationDate(t)))
    {
      match t
      case Publication =>
      case Revision =>
      case Creation =>
    }
  }

  lemma RecordConstraintFields(doc: Document, inspire: bool, code: string, url: string, license: License, datasetId: string)
    ensures var r := RecordOf(doc, inspire, code, url, license, datasetId);
            && KeywordsKey in r && r[KeywordsKey] == TextList(doc.Texts(Keyword))
            && UseLimitationsKey in r && r[UseLimitationsKey] == Text(SingleValue(doc, UseLimitation))
            && LicenseKey in r && r[LicenseKey] == LicenseField(license)
  {
  }

  lemma RecordExtentFields(doc: Document, inspire: bool, code: string, url: string, license: License, datasetId: string)
    ensures var r := RecordOf(doc, inspire, code, url, license, datasetId);
            && BboxKey in r && r[BboxKey] == BoxField(BoundingBoxOf(doc))
            && ServiceTypeKey in r && r[ServiceTypeKey] == Text(SingleValue(doc, ServiceTypeName))
  {
  }

  lemma RecordDatasetFields(doc: Document, inspire: bool, code: string, url: string, license: License, datasetId: string)
    ensures var r := RecordOf(doc, inspire, code, url, license, datasetId);
            && DatasetMdIdentifierKey in r && r[DatasetMdIdentifierKey] == Text(Some(datasetId))
            && DatasetSourceIdentifierKey in r && r[DatasetSourceIdentifierKey] == Text(DatasetSourceIdentifier(doc))
  {
  }

  lemma RecordContactFields(doc: Document, inspire: bool, code: string, url: string, license: License, datasetId: string)
    ensures var r := RecordOf(doc, inspire, code, url, license, datasetId);
            && (forall p: Party :: ContactKey(p) in r && r[ContactKey(p)] == ContactField(ContactOf(doc, p)))
            && ThumbnailsKey in r && r[ThumbnailsKey] == ThumbnailList(ThumbnailsOf(doc))
  {
    var r := RecordOf(doc, inspire, code, url, license, datasetId);
    forall p: Party
      ensures ContactKey(p) in r && r[ContactKey(p)] == ContactField(ContactOf(doc, p))
    {
      match p
      case ServicePointOfContact =>
      case MetadataContact =>
    }
  }

  /** Exactly one key of the record carries the capabilities prefix: the
      one derived from the service code. */
  lemma RecordCapabilitiesKey(doc: Document, inspire: bool, code: string, url: string, license: License, datasetId: string)
    ensures forall k :: k in RecordOf(doc, inspire, code, url, license, datasetId) ==>
              (IsCapabilitiesKey(KeyName(k)) <==> k == CapabilitiesUrlKey(code))
  {
    forall k | k in RecordOf(doc, inspire, code, url, license, datasetId)
      ensures IsCapabilitiesKey(KeyName(k)) <==> k == CapabilitiesUrlKey(code)
    {
      RecordHasOnlyListedKeys(doc, inspire, code, url, license, datasetId);
      CapabilitiesPrefixOnlyOnCapabilitiesKey(k);
    }
  }

  /** A record is returned exactly when none of the four resolvers that
      can raise does, and it is the record filled with their values. */
  lemma ConvertsWhenResolversSucceed(table: ServiceTypes, doc: Document, inspire: bool)
    ensures var r := ConvertedRecord(table, doc, inspire);
            && (r.Ok? <==> && OgcServiceType(table, doc).Ok? && CapabilitiesUrl(doc).Ok?
                           && LicenseOf(doc).Ok? && DatasetMdIdentifier(doc).Ok?)
            && (r.Ok? ==> r.value == RecordOf(doc, inspire, OgcServiceType(table, doc).value, CapabilitiesUrl(doc).value,
                                               LicenseOf(doc).value, DatasetMdIdentifier(doc).value))
  {
    var code, url, license, datasetId :=
      OgcServiceType(table, doc), CapabilitiesUrl(doc), LicenseOf(doc), DatasetMdIdentifier(doc);
    if code.Ok? && url.Ok? && license.Ok? && datasetId.Ok? {
      assert ConvertedRecord(table, doc, inspire)
          == Ok(RecordOf(doc, inspire, code.value, url.value, license.value, datasetId.value));
    }
  }

  /** Otherwise the error is that of the first resolver to raise, in the
      order protocol, capabilities URL, licence, dataset identifier. */
  lemma FirstErrorAborts(table: ServiceTypes, doc: Document, inspire: bool)
    ensures var r := ConvertedRecord(table, doc, inspire);
            && (OgcServiceType(table, doc).Err? ==> r == Err(OgcServiceType(table, doc).error))
            && (OgcServiceType(table, doc).Ok? && CapabilitiesUrl(doc).Err? ==> r == Err(CapabilitiesUrl(doc).error))
            && (OgcServiceType(table, doc).Ok? && CapabilitiesUrl(doc).Ok? && LicenseOf(doc).Err? ==>
                  r == Err(LicenseOf(doc).error))
            && (OgcServiceType(table, doc).Ok? && CapabilitiesUrl(doc).Ok? && LicenseOf(doc).Ok? &&
                DatasetMdIdentifier(doc).Err? ==>
                  r == Err(DatasetMdIdentifier(doc).error))
  {
  }

  /** Two documents that agree on every path a raising resolver reads. */
  predicate SameMandatoryInputs(doc: Document, other: Document) {
    && doc.Texts(ProtocolCharacterString) == other.Texts(ProtocolCharacterString)
    && doc.Texts(ProtocolAnchor) == other.Texts(ProtocolAnchor)
    && doc.Texts(CapabilitiesLinkage) == other.Texts(CapabilitiesLinkage)
    && doc.Attributes(LicenseAnchorHref) == other.Attributes(LicenseAnchorHref)
    && doc.Texts(LicenseAnchor) == other.Texts(LicenseAnchor)
    && doc.Texts(LicenseCharacterString) == other.Texts(LicenseCharacterString)
    && doc.Attributes(OperatesOnHref) == other.Attributes(OperatesOnHref)
  }

  /** Only the protocol, the capabilities URL, the licence and the
      operatesOn href can abort a conversion: documents that agree on
      those either both give a record or both raise the same error. */
  lemma OnlyMandatoryFieldsAbort(table: ServiceTypes, doc: Document, other: Document, inspire: bool)
    requires SameMandatoryInputs(doc, other)
    ensures ConvertedRecord(table, doc, inspire).Ok? <==> ConvertedRecord(table, other, inspire).Ok?
    ensures ConvertedRecord(table, doc, inspire).Err? ==>
              ConvertedRecord(table, doc, inspire) == ConvertedRecord(table, other, inspire)
  {
    ConvertsWhenResolversSucceed(table, doc, inspire);
    ConvertsWhenResolversSucceed(table, other, inspire);
    FirstErrorAborts(table, doc, inspire);
    FirstErrorAborts(table, other, inspire);
  }

  /** A document without an abstract converts exactly when the same
      document with one does, and its record holds None there. */
  lemma MissingAbstractIsNull(table: ServiceTypes, doc: Document, inspire: bool)
    ensures var bare := doc.(texts := doc.texts - {Abstract});
            && (ConvertedRecord(table, bare, inspire).Ok? <==> ConvertedRecord(table, doc, inspire).Ok?)
            && (ConvertedRecord(table, bare, inspire).Ok? ==>
                  AbstractKey in ConvertedRecord(table, bare, inspire).value
                  && ConvertedRecord(table, bare, inspire).value[AbstractKey] == Text(None))
  {
    var bare := doc.(texts := doc.texts - {Abstract});
    OnlyMandatoryFieldsAbort(table, doc, bare, inspire);
    ConvertsWhenResolversSucceed(table, bare, inspire);
    if ConvertedRecord(table, bare, inspire).Ok? {
      RecordCitationFields(bare, inspire, OgcServiceType(table, bare).value, CapabilitiesUrl(bare).value,
                           LicenseOf(bare).value, DatasetMdIdentifier(bare).value);
    }
  }
}
