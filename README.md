# Dutch-profile ISO 19119 service metadata extractor — decision layer

This project models the core of a converter. The converter reads an ISO 19139 / ISO 19119 service metadata record in the Dutch profile (version 1.2 or 2.0) and turns it into a flat record: the service protocol and its capabilities URL, the licence, the INSPIRE theme, keywords, thumbnails, bounding box, contacts and dataset identifiers. The repository has two copies of this logic:

- the class `ServiceRecord` in `service_md_converter/service_record.py`;
- the older module-level functions of `script.py`.

In the code at hand, the two copies differ only in their protocol-to-service-code table: the class also maps "UKST" to "TMS". The class takes `is_url` and `get_service_cap_key` from `service_md_converter/util.py`, which is not part of this model; both are modelled after their definitions in `script.py` (lines 57-59 and 139-144).

How it is modelled:

- **Document** (`Xml`). The parsed XML is seen only through the XPath expressions the extractor evaluates. Each expression is an enumerated path key. A document maps a key to its matching nodes in document order:
  - an element path contributes the node's text, which may be `None`;
  - an attribute path contributes the attribute's value;
  - each `gmd:MD_BrowseGraphic` is kept as a sub-document with its three relative paths.
- **URL parsing** (`UrlParse`). The parts of `urllib.parse` the extractor relies on are written out:
  - `urlsplit`: first the cleaning of its input (leading C0 controls and spaces stripped, every tab, carriage return and line feed removed), then the scheme rule, the network location after "//" and the "Invalid IPv6 URL" error;
  - `is_url`;
  - `parse_qsl`/`parse_qs`.
- **Text operations** (`Strings`): `str.lower`, `str.find`, `str.split`/`join` and `str.replace`.
- **Resolvers** (`Extraction`). The resolvers are shared by both copies and take the service-type table as a parameter.
  - Each resolver that can raise returns a `Result` whose error names the exception.
  - A method that builds a list or dictionary step by step is proved equal to a function that states the result.
- **Output record.** `Extraction.ConvertedRecord` is the output of `convert_to_dictionary` and of `main`: a map from output keys to field values. `KeyName` gives the JSON name of each key; the capabilities key's name is derived from the service code.
- **The two tables.** `Script` holds the script's seven-entry table. `ServiceRecords` holds the class, its eight-entry table and how the two tables relate.

## Model

| member | source | states |
|---|---|---|
| Xml.FirstText | service_md_converter/service_record.py:27-33 | A text comes back only from the first match, and it is that match's text. |
| Xml.FirstMatchOnly | service_md_converter/service_record.py:27-33 | The single-value lookup gives the first match's text: later matches change nothing, and no match gives None. |
| Xml.FirstAttributeOnly | service_md_converter/service_record.py:35-39 | The single-attribute lookup gives the first match itself: later matches change nothing, and no match gives None. |
| Xml.FirstAttribute | service_md_converter/service_record.py:35-39 | A value comes back exactly when something matches, and it is the first match. |
| Strings.Lower | script.py:57-59 | `lower()` keeps the length, turns each upper-case ASCII letter into its lower-case letter (32 code points on), and leaves every other character unchanged. |
| Strings.LowerInjective | script.py:57-59 | Lower-casing loses nothing on text without lower-case letters, such as the service codes. |
| Strings.JoinSplit | script.py:225 | Joining the pieces of `split(sep)` with `sep` gives back the text. |
| Strings.SplitJoin | script.py:225 | Splitting a join of separator-free pieces gives back the same pieces. |
| Strings.ReplaceAll | service_md_converter/service_record.py:116 | `replace` puts no character in the text that was in neither the text nor the replacement. |
| Strings.ReplaceAllAbsent | service_md_converter/service_record.py:116 | `replace` leaves text that does not contain the pattern unchanged. |
| Strings.RewriteLeavesNoInsecure | script.py:131-132 | After `replace("http://", "https://")` no "http://" is left anywhere in the text. |
| Strings.RewriteIdempotent | script.py:131-132 | Rewriting an already rewritten text changes nothing. |
| Strings.RewriteKeepsPrefix | script.py:131-132 | The rewrite creates no prefix free of 'h' that the original did not have. |
| Strings.RewriteAfterPrefix | script.py:131-132 | In a text whose first "http://" follows a prefix without an 'h', the rewrite keeps that prefix, writes "https://" and rewrites the rest. |
| UrlParse.StripLeading | script.py:139-144 | `urlsplit`'s `lstrip`: the result is a suffix of the input, everything cut off is a C0 control or a space, and the result starts with neither. |
| UrlParse.RemoveUnsafe | script.py:139-144 | Removing tabs, carriage returns and line feeds never lengthens the text and leaves a text without them unchanged. |
| UrlParse.RemoveUnsafeChars | script.py:139-144 | The characters kept are exactly the input's characters other than tab, carriage return and line feed. |
| UrlParse.RemoveUnsafeAppend | script.py:139-144 | The removal works piece by piece over a concatenation. |
| UrlParse.CleanChars | script.py:139-144 | The text `urlsplit` splits holds only characters of the input, none of them a tab or line break, and does not start with a control or a space. |
| UrlParse.CleanIdempotent | script.py:139-144 | Cleaning twice is cleaning once. |
| UrlParse.SplitClean | script.py:139-144 | In a split, the network location holds none of '/', '?' and '#', the path neither '?' nor '#', and the query no '#'. |
| UrlParse.UrlSplit | script.py:139-144 | `urlsplit` of any text: the same delimiter facts, for the parts of the cleaned text. |
| UrlParse.IsUrl | script.py:139-144 | None is never a URL, and a URL is a text that `urlsplit` parses. |
| UrlParse.LeadingSpaceIgnored | script.py:139-144 | Controls and spaces in front of a text do not change how it splits. |
| UrlParse.SurroundingWhitespaceIgnored | script.py:139-144 | Controls and spaces in front, and tabs and line breaks behind, do not change how a text splits. |
| UrlParse.PaddedUrlIsUrl | script.py:139-144 | A URL on its own indented line, such as "\n  https://example.com/wms\n", is still a URL. |
| UrlParse.UrlShapeIsUrl | iso19139_nl_reader/util.py:3-8 | Any text of the form scheme "://" netloc, optionally followed by a path, query or fragment, parses with that (lower-cased) scheme and that netloc, and is a URL. |
| UrlParse.IsUrlShape | iso19139_nl_reader/util.py:3-8 | Conversely, every URL, once cleaned, starts with a valid scheme, then "://", then a network-location character. |
| UrlParse.UrlHasColon | script.py:139-144 | Every text `is_url` accepts holds a ':'. |
| UrlParse.NotAUrl | script.py:139-144 | "not-a-url" is refused. |
| UrlParse.ExampleServiceUrl | script.py:139-144 | "https://example.com/wms" is accepted. |
| UrlParse.QueryAfterMark | script.py:224 | The query that `urlparse` gives for "base?q" is `q` without its tabs and line breaks, when the base has no '?', '#' or bracket and `q` has no '#'. |
| UrlParse.Group | script.py:225 | `parse_qs` maps exactly the names that occur, each to all of its values in order. |
| UrlParse.ParseQs | script.py:225 | The dictionary holds exactly the names of the kept fields, each with all of its values in order. |
| UrlParse.QueryRoundTrip | script.py:225 | Parsing a query written from plain name/value pairs gives back the same pairs in the same order. |
| UrlParse.ParseFormattedField | script.py:225 | A "name=value" field parses back to its pair. |
| Extraction.ResolvedProtocol | service_md_converter/service_record.py:41-47 | A CharacterString protocol is the protocol; without one, the Anchor encoding is. A protocol exists exactly when one of the two does. |
| Extraction.OgcServiceType | service_md_converter/service_record.py:41-51 | Ok exactly when the resolved protocol is present and in the table. The value is the table's code for it, so it is one of the table's codes. Otherwise the error carries the protocol, None included. |
| Extraction.CharacterStringProtocolWins | service_md_converter/service_record.py:43-47 | When the CharacterString protocol is non-None it is the protocol, and the Anchor encoding is never consulted. |
| Extraction.AnchorProtocolFallback | service_md_converter/service_record.py:44-47 | When the CharacterString protocol is None, the Anchor encoding alone decides. |
| Extraction.ServiceCapKey | script.py:57-59 | The key starts with "service_capabilities_url_", and the rest is the lower-cased service code. |
| Extraction.ServiceCapKeyInjective | script.py:57-59 | Distinct upper-case service codes give distinct capabilities keys. |
| Extraction.ServiceCapKeyWms | script.py:57-59 | WMS gives "service_capabilities_url_wms". |
| Extraction.CapabilitiesUrl | service_md_converter/service_record.py:53-59 | Ok exactly when the first linkage passes `is_url`, and then it is returned unchanged. Otherwise the error carries the value found. |
| Extraction.CapabilitiesUrlExamples | script.py:72-77 | "https://example.com/wms" is returned as it is; "not-a-url" raises. |
| Extraction.InspireThemeUrl | service_md_converter/service_record.py:111-117 | None stays None, and "" stays "". A non-empty href comes back as its `replace("http://", "https://")`, so with no "http://" left. An href without "http://" (an https one, for instance) comes back unchanged. |
| Extraction.InspireThemeUpgraded | script.py:127-133 | An href made of a prefix without 'h', then "http://", then a rest, comes back as the prefix, "https://" and the rewritten rest. |
| Extraction.LicenseOf | service_md_converter/service_record.py:123-147 | All four branches in full. A profile-2.0 href wins: its description is the first anchor's text, and the URL must pass `is_url`. Otherwise one or no profile-1.2 node raises. Otherwise node 0 is the description and node 1 the URL, which must pass `is_url`. A returned URL always passes `is_url`. |
| Extraction.Profile20LicenseWins | service_md_converter/service_record.py:130-133 | With a profile-2.0 href present, the profile-1.2 nodes never affect the result. |
| Extraction.GetLicense | script.py:147-169 | Filling `url` and `description` branch by branch gives exactly `LicenseOf`. |
| Extraction.GetKeywords | service_md_converter/service_record.py:103-109 | The loop collects one entry per keyword node, in document order. |
| Extraction.ThumbnailsOf | script.py:171-184 | One entry per browse graphic, in order. Each entry holds the first text of that graphic's file name, description and file type. |
| Extraction.GetThumbnails | service_md_converter/service_record.py:149-165 | The appending loop gives exactly `ThumbnailsOf`. |
| Extraction.BoundingBoxOf | script.py:190-201 | West gives minx, east maxx, north maxy and south miny, each as uninterpreted text. |
| Extraction.GetBbox | service_md_converter/service_record.py:171-182 | Filling the box corner by corner gives exactly `BoundingBoxOf`. |
| Extraction.ContactOf | script.py:79-90 | For the given party: organisation name, e-mail and URL as the first text of their paths, and the role as the first code-list value. |
| Extraction.GetContact | service_md_converter/service_record.py:61-73 | Filling the contact entry by entry gives exactly `ContactOf`. |
| Extraction.OperatesOnOf | script.py:214-220 | The first uuidref and the first href, each None when absent. |
| Extraction.GetOperatesOn | service_md_converter/service_record.py:184-190 | Filling the pair entry by entry gives exactly `OperatesOnOf`. |
| Extraction.DatasetSourceIdentifier | service_md_converter/service_record.py:197-199 | Present exactly when some uuidref exists, and then it is the first one. |
| Extraction.DatasetMdIdentifier | service_md_converter/service_record.py:192-195 | A href that `urlparse` refuses raises. Otherwise Ok exactly when the query has an "id" value, and the result is the first one. A missing "id" (an absent href included) raises KeyError. |
| Extraction.DatasetMdIdentifierFromQuery | script.py:222-225 | For an href "base?query" written from pairs, with no tab or line break in the query: the first "id" among the pairs, or KeyError when there is none. |
| Extraction.DatasetMdIdentifierExample | script.py:222-225 | "https://cat.example/csw?id=abc123" gives "abc123". |
| Extraction.DatasetMdIdentifierMissingExample | script.py:222-225 | "https://cat.example/csw?request=GetRecordById" raises KeyError for "id". |
| Extraction.CapabilitiesPrefixOnlyOnCapabilitiesKey | service_md_converter/service_record.py:208-209 | Only the capabilities key's name starts with the capabilities prefix, so it cannot overwrite any other key. |
| Extraction.ConvertToDictionary | service_md_converter/service_record.py:201-231 | Filling the record key by key in source order, with any raise aborting, gives exactly `ConvertedRecord`. |
| Extraction.RecordHasFixedKeys | service_md_converter/service_record.py:202-231 | Every record has the 21 keys that depend on neither the flag nor the service type. |
| Extraction.RecordHasOnlyListedKeys | service_md_converter/service_record.py:202-231 | Besides those 21 keys, a record holds only the capabilities key of its own service code and, when the flag is set, the theme key. |
| Extraction.RecordInspireFields | service_md_converter/service_record.py:203-205 | "inspire" holds the flag. "inspire_theme_uri" is present exactly when the flag is set, and then it holds the rewritten theme href. |
| Extraction.RecordServiceFields | service_md_converter/service_record.py:206-209 | The service code, and the capabilities URL under the key derived from that code. |
| Extraction.RecordStandardFields | service_md_converter/service_record.py:210-211 | The metadata standard name and version are their first texts. |
| Extraction.RecordIdentityFields | service_md_converter/service_record.py:212-213 | The file identifier and the date stamp are their first texts. |
| Extraction.RecordCitationFields | service_md_converter/service_record.py:214-215 | The title and the abstract are their first texts. |
| Extraction.RecordDateFields | service_md_converter/service_record.py:216-218 | Each of the three citation dates is the first date of its type. |
| Extraction.RecordConstraintFields | service_md_converter/service_record.py:219-221 | All keywords in order, the first use limitation, and the resolved licence. |
| Extraction.RecordExtentFields | service_md_converter/service_record.py:222-223 | The bounding box, and the service type name. |
| Extraction.RecordDatasetFields | service_md_converter/service_record.py:224-225 | The dataset metadata identifier, and the first uuidref. |
| Extraction.RecordContactFields | service_md_converter/service_record.py:226-230 | Both contacts, each from its own party, and the thumbnails. |
| Extraction.RecordCapabilitiesKey | service_md_converter/service_record.py:208-209 | Exactly one key of the record carries the capabilities prefix: the one derived from the resolved service type. |
| Extraction.ConvertsWhenResolversSucceed | service_md_converter/service_record.py:201-231 | `ConvertedRecord` gives a record exactly when none of the four raising resolvers raises, and it is `RecordOf` their values. |
| Extraction.FirstErrorAborts | service_md_converter/service_record.py:201-231 | Otherwise there is no record, and the error is that of the first resolver to raise, in call order. |
| Extraction.OnlyMandatoryFieldsAbort | service_md_converter/service_record.py:206-224 | Documents that agree on the protocol, linkage, licence and operatesOn href paths either both convert or both raise the same error. Every other field is soft. |
| Extraction.MissingAbstractIsNull | service_md_converter/service_record.py:95-97 | Removing the abstract never decides whether conversion succeeds, and a successful record then holds None for it. |
| Script.ServiceTypesKeys | script.py:9-17 | The table knows exactly the seven listed protocols, and not "UKST". |
| Script.ServiceTypesSize | script.py:9-17 | The table has exactly seven entries. |
| Script.ShortIdentifiers | script.py:10-15 | The five seven-letter protocol identifiers are distinct. |
| Script.ServiceTypesCodes | script.py:9-17 | Its codes are exactly CSW, WMS, WMTS, WFS, WCS, SOS and ATOM, none containing a lower-case letter. |
| Script.ScriptServiceType | script.py:61-70 | A resolved code is one of the seven codes. An absent protocol raises, and so does "UKST". |
| Script.ScriptCapKeysDistinct | script.py:57-59 | Two table codes with the same capabilities key are the same code. |
| Script.BuildResult | script.py:26-53 | The result-building body of `main` gives exactly `ConvertedRecord` under the script's table. |
| ServiceRecords.ServiceRecord.constructor | service_md_converter/service_record.py:7-25 | Holds the given document; every object's table is the eight-entry one. |
| ServiceRecords.ServiceRecord.GetOgcServiceType | service_md_converter/service_record.py:41-51 | Resolves against the class's table, so a resolved code is one of the eight codes, TMS included. |
| ServiceRecords.ServiceRecord.ConvertToDictionary | service_md_converter/service_record.py:201-231 | `ConvertedRecord` of the object's document under the object's table. |
| ServiceRecords.TablesDifferOnlyInUkst | service_md_converter/service_record.py:16-25 | The class's table is the script's table plus the single entry "UKST" to "TMS", so its codes are the script's codes plus "TMS". |
| ServiceRecords.ServiceTypeDivergence | service_md_converter/service_record.py:48-51 | Both copies resolve every protocol alike except "UKST": the class gives TMS, and the script raises. |

## Left out

- Reading the file, lxml parsing, the namespace map and XPath evaluation. These are replaced by the enumerated document described above. Each path's matches are given in document order.
- JSON printing and the order of keys in the output (script.py:54). The record is a map.
- The argparse entry points of `script.py` and `iso19139_nl_reader/cli.py`. `cli.py` calls `convert_to_dictionary()` without its `inspire` argument, which raises TypeError before anything is extracted.
- `setup.py`.
- `service_md_converter/util.py` is not part of this model. The class imports `get_service_cap_key` from it, so the key template is taken from `script.py:57-59`.
- `is_url` on a text only. Any other non-text input is not modelled.
- `urlsplit` checks that refuse texts the model accepts. For these texts `is_url` is False and the resolvers raise ValueError in Python, while the model splits them:
  - the validation of a bracketed host as an IPv6 or IPvFuture address (the model checks only that the brackets pair up, so "http://[abc]/" is a URL here);
  - the NFKC check on non-ASCII network locations.
- The `;` path parameters `urlparse` also splits off. The query is the same either way.
- `parse_qs`: '+' and percent-decoding of names and values are not modelled. The separator is '&' only.
- `Strings.Lower`: Unicode case mapping beyond ASCII is not modelled. Every text it is applied to (service codes and URL schemes) is ASCII.
- The bounding-box decimals stay text. The source never parses them.
