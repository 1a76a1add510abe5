/** The parsed ISO 19139 / ISO 19119 metadata document, seen only through
    the XPath expressions the extractor evaluates. Each expression is a
    path key; evaluating it gives the matching nodes in document order.
    For an element path a node contributes its text, which is None when
    the element has no text; for an attribute path it contributes the
    attribute's value. A key the document does not mention matches
    nothing. */
module Xml {
  import opened Wrappers

  /** The `gmd:CI_DateTypeCode` code-list values `get_md_date` is asked for. */
  datatype DateType = Publication | Revision | Creation

  /** The two `gmd:CI_ResponsibleParty` blocks `get_contact` is given:
      the service's point of contact and the metadata contact. */
  datatype Party = ServicePointOfContact | MetadataContact

  /** Element paths, read through the element's text. */
  datatype TextPath =
    // gmd:distributionInfo/.../gmd:CI_OnlineResource
    | ProtocolCharacterString        // gmd:protocol/gco:CharacterString
    | ProtocolAnchor                 // gmd:protocol/gmx:Anchor
    | CapabilitiesLinkage            // gmd:linkage/gmd:URL
    // gmd:MD_Metadata
    | FileIdentifier                 // gmd:fileIdentifier/gco:CharacterString
    | DateStamp                      // gmd:dateStamp/gco:Date
    | StandardName                   // gmd:metadataStandardName/gco:CharacterString
    | StandardVersion                // gmd:metadataStandardVersion/gco:CharacterString
    // srv:SV_ServiceIdentification
    | CitationDate(dateType: DateType)  // gmd:citation/.../gmd:date/gco:Date of that type
    | Abstract                       // gmd:abstract/gco:CharacterString
    | Title                          // gmd:citation/gmd:CI_Citation/gmd:title/gco:CharacterString
    | Keyword                        // gmd:descriptiveKeywords/.../gmd:keyword/gco:CharacterString
    | UseLimitation                  // gmd:MD_Constraints/gmd:useLimitation/gco:CharacterString
    | LicenseCharacterString         // gmd:MD_LegalConstraints/gmd:otherConstraints/gco:CharacterString
    | LicenseAnchor                  // gmd:MD_LegalConstraints/gmd:otherConstraints/gmx:Anchor
    | ServiceTypeName                // srv:serviceType/gco:LocalName
    | WestBound                      // gmd:EX_GeographicBoundingBox/gmd:westBoundLongitude/gco:Decimal
    | EastBound                      // .../gmd:eastBoundLongitude/gco:Decimal
    | NorthBound                     // .../gmd:northBoundLatitude/gco:Decimal
    | SouthBound                     // .../gmd:southBoundLatitude/gco:Decimal
    // gmd:CI_ResponsibleParty of either party
    | OrganisationName(party: Party) // gmd:organisationName/gco:CharacterString
    | Email(party: Party)            // .../gmd:electronicMailAddress/gco:CharacterString
    | ContactUrl(party: Party)       // .../gmd:onlineResource/gmd:CI_OnlineResource/gmd:linkage/gmd:URL

  /** Attribute paths, read as the attribute's value. */
  datatype AttributePath =
    | InspireThemeHref               // gmd:keyword/gmx:Anchor/@xlink:href under the GEMET INSPIRE themes thesaurus
    | LicenseAnchorHref              // gmd:otherConstraints/gmx:Anchor/@xlink:href
    | RoleCode(party: Party)         // gmd:role/gmd:CI_RoleCode/@codeListValue
    | OperatesOnUuidref              // srv:operatesOn/@uuidref
    | OperatesOnHref                 // srv:operatesOn/@xlink:href

  /** One `gmd:MD_BrowseGraphic`, with the text nodes of its three
      relative paths. */
  datatype Graphic = Graphic(
    fileName: seq<Option<string>>,         // gmd:fileName/gco:CharacterString
    fileDescription: seq<Option<string>>,  // gmd:fileDescription/gco:CharacterString
    fileType: seq<Option<string>>)         // gmd:fileType/gco:CharacterString

  datatype Document = Document(
    texts: map<TextPath, seq<Option<string>>>,
    attributes: map<AttributePath, seq<string>>,
    graphics: seq<Graphic>)
  {
    /** The nodes an element path matches, in document order. */
    function Texts(p: TextPath): seq<Option<string>> {
      if p in texts then texts[p] else []
    }

    /** The values an attribute path matches, in document order. */
    function Attributes(p: AttributePath): seq<string> {
      if p in attributes then attributes[p] else []
    }
  }

  /** `get_single_xpath_value`: the text of the first match, or None when
      nothing matches. */
  function FirstText(nodes: seq<Option<string>>): (r: Option<string>)
    ensures r.Some? ==> |nodes| > 0 && r == nodes[0]
  {
    if |nodes| > 0 then nodes[0] else None
  }

  /** `get_single_xpath_att`: the first match itself, or None when nothing
      matches. */
  function FirstAttribute(values: seq<string>): (r: Option<string>)
    ensures r.Some? <==> |values| > 0
    ensures r.Some? ==> r.value == values[0]
  {
    if |values| > 0 then Some(values[0]) else None
  }

  /** Only the first match counts: matches after it change nothing, and
      with no match the answer is None. */
  lemma FirstMatchOnly(nodes: seq<Option<string>>, later: seq<Option<string>>)
    ensures FirstText([]) == None
    ensures |nodes| > 0 ==> FirstText(nodes + later) == FirstText(nodes) == nodes[0]
  {
    if |nodes| > 0 {
      assert (nodes + later)[0] == nodes[0];
    }
  }

  lemma FirstAttributeOnly(values: seq<string>, later: seq<string>)
    ensures FirstAttribute([]) == None
    ensures |values| > 0 ==> FirstAttribute(values + later) == FirstAttribute(values) == Some(values[0])
  {
    if |values| > 0 {
      assert (values + later)[0] == values[0];
    }
  }

  function SingleValue(doc: Document, p: TextPath): Option<string> {
    FirstText(doc.Texts(p))
  }

  function SingleAttribute(doc: Document, p: AttributePath): Option<string> {
    FirstAttribute(doc.Attributes(p))
  }
}
