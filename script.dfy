/** The older stand-alone script: the same decision layer as the
    `ServiceRecord` class, driven by its own module-level service-type
    table, which has no "UKST" entry. Its `main` reads the file, fills
    the record and prints it as JSON; here it takes the parsed document
    and returns the record. */
module Script {
  import opened Wrappers
  import opened Strings
  import opened Xml
  import opened Extraction

  /** `SERVICE_TYPES`: protocol identifier to service code. */
  const ServiceTypes: ServiceTypes := map[
    "OGC:CSW" := "CSW",
    "OGC:WMS" := "WMS",
    "OGC:WMTS" := "WMTS",
    "OGC:WFS" := "WFS",
    "OGC:WCS" := "WCS",
    "OGC:SOS" := "SOS",
    "INSPIRE Atom" := "ATOM"
  ]

  /** The table knows exactly the seven protocol identifiers, and not
      "UKST". */
  lemma ServiceTypesKeys()
    ensures ServiceTypes.Keys == {"OGC:CSW", "OGC:WMS", "OGC:WMTS", "OGC:WFS", "OGC:WCS", "OGC:SOS", "INSPIRE Atom"}
    ensures "UKST" !in ServiceTypes
  {
  }

  /** The table has exactly seven entries. */
  lemma ServiceTypesSize()
    ensures |ServiceTypes| == 7
  {
    ServiceTypesKeys();
    var short := ShortIdentifiers();
    assert ServiceTypes.Keys == short + {"OGC:WMTS", "INSPIRE Atom"};
  }

  /** The five seven-letter identifiers, which differ in their sixth letter. */
  lemma ShortIdentifiers() returns (keys: set<string>)
    ensures keys == {"OGC:CSW", "OGC:WMS", "OGC:WFS", "OGC:WCS", "OGC:SOS"}
    ensures |keys| == 5
    ensures "OGC:WMTS" !in keys && "INSPIRE Atom" !in keys
  {
    keys := {"OGC:CSW", "OGC:WMS", "OGC:WFS", "OGC:WCS", "OGC:SOS"};
    assert "OGC:CSW"[5] == 'S' && "OGC:WMS"[5] == 'M' && "OGC:WFS"[5] == 'F';
    assert "OGC:WCS"[5] == 'C' && "OGC:SOS"[5] == 'O';
  }

  /** Its codes are the seven upper-case service codes. */
  lemma ServiceTypesCodes()
    ensures ServiceTypes.Values == {"CSW", "WMS", "WMTS", "WFS", "WCS", "SOS", "ATOM"}
    ensures forall code :: code in ServiceTypes.Values ==> NoAsciiLower(code)
  {
    assert ServiceTypes["OGC:CSW"] == "CSW" && ServiceTypes["OGC:WMS"] == "WMS";
    assert ServiceTypes["OGC:WMTS"] == "WMTS" && ServiceTypes["OGC:WFS"] == "WFS";
    assert ServiceTypes["OGC:WCS"] == "WCS" && ServiceTypes["OGC:SOS"] == "SOS";
    assert ServiceTypes["INSPIRE Atom"] == "ATOM";
  }

  /** `get_ogc_servicetype` against the script's table: one of its seven
      codes, and any other protocol, an absent one included, raises. */
  lemma ScriptServiceType(doc: Document)
    ensures OgcServiceType(ServiceTypes, doc).Ok? ==>
              OgcServiceType(ServiceTypes, doc).value in {"CSW", "WMS", "WMTS", "WFS", "WCS", "SOS", "ATOM"}
    ensures ResolvedProtocol(doc) == None ==> OgcServiceType(ServiceTypes, doc) == Err(UnknownProtocol(None))
    ensures ResolvedProtocol(doc) == Some("UKST") ==> OgcServiceType(ServiceTypes, doc) == Err(UnknownProtocol(Some("UKST")))
  {
    ServiceTypesKeys();
    ServiceTypesCodes();
  }

  /** `get_service_cap_key` on a code of the table: distinct codes give
      distinct keys. */
  lemma ScriptCapKeysDistinct(a: string, b: string)
    requires a in ServiceTypes.Values && b in ServiceTypes.Values
    requires ServiceCapKey(a) == ServiceCapKey(b)
    ensures a == b
  {
    ServiceTypesCodes();
    ServiceCapKeyInjective(a, b);
  }

  /** The result-building body of `main`: the record of the document
      under the script's table, or the first error raised. */
  method BuildResult(doc: Document, inspire: bool) returns (r: Result<Record, Error>)
    ensures r == ConvertedRecord(ServiceTypes, doc, inspire)
  {
    r := ConvertToDictionary(ServiceTypes, doc, inspire);
  }
}
