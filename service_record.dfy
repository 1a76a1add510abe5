/** The `ServiceRecord` class: a parsed document and the service-type
    table, both set once by the constructor and never changed, and the
    resolvers run against them. */
module ServiceRecords {
  import opened Wrappers
  import opened Xml
  import opened Extraction
  import Script

  /** The class's table: the script's seven entries and "UKST". */
  const RecordServiceTypes: ServiceTypes := map[
    "OGC:CSW" := "CSW",
    "OGC:WMS" := "WMS",
    "OGC:WMTS" := "WMTS",
    "OGC:WFS" := "WFS",
    "OGC:WCS" := "WCS",
    "OGC:SOS" := "SOS",
    "INSPIRE Atom" := "ATOM",
    "UKST" := "TMS"
  ]

  class ServiceRecord {
    /** The parsed metadata document (`etree`). */
    const doc: Document
    /** `service_types`, the same table in every instance. */
    const serviceTypes: ServiceTypes := RecordServiceTypes

    /** Reading and parsing the file are not modelled: the constructor is
        given the parsed document. */
    constructor(doc: Document)
      ensures this.doc == doc
    {
      this.doc := doc;
    }

    /** `get_ogc_servicetype` against the class's table. */
    method GetOgcServiceType() returns (r: Result<string, Error>)
      ensures r == OgcServiceType(RecordServiceTypes, doc)
      ensures r.Ok? ==> r.value in {"CSW", "WMS", "WMTS", "WFS", "WCS", "SOS", "ATOM", "TMS"}
    {
      TablesDifferOnlyInUkst();
      r := OgcServiceType(serviceTypes, doc);
    }

    /** `convert_to_dictionary`. */
    method ConvertToDictionary(inspire: bool) returns (r: Result<Record, Error>)
      ensures r == ConvertedRecord(serviceTypes, doc, inspire)
    {
      r := Extraction.ConvertToDictionary(serviceTypes, doc, inspire);
    }
  }

  /** The class's table is the script's with the one entry "UKST" to
      "TMS" added. */
  lemma TablesDifferOnlyInUkst()
    ensures "UKST" !in Script.ServiceTypes
    ensures RecordServiceTypes == Script.ServiceTypes["UKST" := "TMS"]
    ensures RecordServiceTypes.Values == Script.ServiceTypes.Values + {"TMS"}
  {
    Script.ServiceTypesKeys();
    NewEntryAddsValue(Script.ServiceTypes, "UKST", "TMS");
  }

  lemma NewEntryAddsValue(m: map<string, string>, k: string, v: string)
    requires k !in m
    ensures m[k := v].Values == m.Values + {v}
  {
    assert k in m[k := v] && m[k := v][k] == v;
    forall x | x in m[k := v].Values
      ensures x in m.Values + {v}
    {
      var j :| j in m[k := v] && m[k := v][j] == x;
      if j != k {
        assert j in m && m[j] == x;
      }
    }
    forall x | x in m.Values
      ensures x in m[k := v].Values
    {
      var j :| j in m && m[j] == x;
      assert j != k && m[k := v][j] == x;
    }
  }

  /** The two copies resolve every protocol alike except "UKST", which
      the class maps to "TMS" and the script refuses. */
  lemma ServiceTypeDivergence(doc: Document)
    ensures ResolvedProtocol(doc) != Some("UKST") ==>
              OgcServiceType(RecordServiceTypes, doc) == OgcServiceType(Script.ServiceTypes, doc)
    ensures ResolvedProtocol(doc) == Some("UKST") ==>
              && OgcServiceType(RecordServiceTypes, doc) == Ok("TMS")
              && OgcServiceType(Script.ServiceTypes, doc) == Err(UnknownProtocol(Some("UKST")))
  {
    TablesDifferOnlyInUkst();
  }
}
