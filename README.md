# dlnagent core, modelled in Dafny

dlnagent is a small DLNA/UPnP agent written in Go. It finds media renderers on the local network through SSDP and keeps a registry of them, keyed by uuid. It exposes an HTTP API that lists the registry, sets a default device and casts a media URL to a device. Casting sends the AVTransport actions `SetAVTransportURI` and then `Play` as SOAP requests.

This project models that core in Dafny, together with the contracts the code promises:

- the SSDP side (`dlna/discovery.go`):
  - reading advertisement headers;
  - resolving a new device from its decoded description;
  - the registry and its five-minute timeout sweep;
  - choosing the listener families and the interface to join on;
  - choosing the search source IPs and the M-SEARCH datagram (UPnP Device Architecture 1.1, section 1.3.2);
- the AVTransport client (`dlna/control.go`):
  - the DIDL-Lite metadata and its XML escaping (XML 1.0, sections 2.2, 4.1 and 4.6);
  - the SOAP envelopes and headers (SOAP 1.1, section 6.1.1; UPnP Device Architecture 1.1, section 3.2.1);
  - the two-step `Play` sequence;
- the HTTP handlers (`api/handlers.go`): the `defaultID` state, target selection and the status each outcome maps to.

Files:

| file | module | contents |
|---|---|---|
| wrappers.dfy | Wrappers | `Option`, `Result` |
| device.dfy | DeviceRecord | the `Device` record; time as integer nanoseconds |
| go_strings.dfy | GoStrings | `strings.Contains`, `LastIndex`, `Split(..)[0]`, cutting at a character, cutting off a known head and tail |
| net_url.dfy | NetUrl | the `Scheme` and `Host` that `url.Parse` gives a Location, and the `removeEmptyPort` step of `http.NewRequest` |
| go_fmt.dfy | GoFmt | `%d` for non-negative integers, and reading the digits back |
| xml_text.dfy | XmlText | `xml.EscapeText`, and the reading that undoes it |
| text_template.dfy | TextTemplate | `text/template` over literal text and `{{.Name}}` fields |
| discovery.dfy | Discovery | SSDP, description resolution, and the `DiscoveryService` class holding the registry |
| control.dfy | Control | metadata, envelopes, the `Transport` class and `Play` |
| api.dfy | Api | the `Handler` class and the cast decision chain |

State the code changes in place is modelled with classes:

- `DiscoveryService.devices` is a `map` that the methods reassign.
- `Handler.defaultID` is a field.
- `Transport` records every POST in `sent` and answers each one from a script of `replies`.

Everything the program receives from the outside is an input:
- parsed packets (`Packet` holds what `http.ReadRequest` and `http.ReadResponse` each made of the datagram);
- decoded descriptions;
- the interface list;
- `net.ParseIP`'s result;
- the current time;
- decoded JSON bodies;
- the replies of the HTTP client.

Points of the code's behaviour worth knowing, all modelled as the code has them:

- `processPacket` tries request framing (NOTIFY) first and response framing second (dlna/discovery.go:180-194).
- The code does not rebuild the registry by mark and sweep. A new uuid is inserted when its description has been resolved (dlna/discovery.go:282-287). A separate sweep deletes records last seen more than five minutes ago (dlna/discovery.go:64-73).
- A repeat advertisement refreshes only `LastSeen`. Its Location and Server are not taken over (dlna/discovery.go:211-218).
- The HTTP client used by `sendSOAPAction` has no timeout (dlna/control.go:80). The model has no clock there.

Two things anyone reading the code should know:

- api/handlers.go:91 calls `dlna.Play(device.ControlURL, req.URL)` with two arguments, but dlna/control.go:30 declares three (`controlURL, mediaURL, title`). The code as shown does not compile. `Api.Handler.Cast` models the call as `Play(controlURL, url, "")`, so a cast carries no title and therefore empty `CurrentURIMetaData`.
- main.go:14 sets the `-i` flag to `eth0` by default and main.go:19 passes it on as the bind IP. `net.ParseIP("eth0")` fails, so with the default flag `getBindIPs` returns an error and no M-SEARCH is ever sent; listening keeps both families (`Discovery.InvalidBindKeepsListening`). main.go itself is not part of this model.

## Model

| member | source | states |
|---|---|---|
| GoStrings.Contains | dlna/discovery.go:249 | `strings.Contains` holds exactly when the substring occurs at some index |
| GoStrings.LastIndex | dlna/discovery.go:262 | the result is -1 or an index holding the character, and no later index holds it |
| GoStrings.SplitFirst | dlna/discovery.go:205 | `strings.Split(s, sep)[0]`: a prefix of `s` with no separator starting inside it, which is all of `s` or is followed by the separator |
| GoStrings.SplitFirstUnique | dlna/discovery.go:205 | those three facts determine the first split piece |
| GoStrings.BeforeChar | dlna/discovery.go:262-267 | the text before the first occurrence of a character: a prefix without it, which is followed by it or is all of the text |
| GoStrings.BeforeCharSkips | dlna/discovery.go:266-267 | cutting at a character passes over a head that does not contain it |
| GoStrings.BeforeCharAbsent | dlna/discovery.go:266-267 | a text without the character is kept whole |
| GoStrings.Between | dlna/control.go:59-70 | a text found between a head and a tail really is framed by them |
| GoStrings.BetweenFramed | dlna/control.go:59-70 | whatever is framed by a head and a tail is recovered |
| GoStrings.CancelHead | dlna/control.go:89 | equal texts with a common head are equal after it |
| NetUrl.SchemeSpan | dlna/discovery.go:266 | the length of the longest run of scheme characters at the start |
| NetUrl.Lower | dlna/discovery.go:266 | lower-casing keeps the length and maps every character |
| NetUrl.SchemeSpanStops | dlna/discovery.go:266 | the run of scheme characters ends at the first other character |
| NetUrl.SplitsLowerScheme | dlna/discovery.go:266-267 | the scheme of `scheme:rest` is split off unchanged, leaving `rest` |
| NetUrl.AuthorityIsHost | dlna/discovery.go:266-267 | the authority of `//host` followed by a path part is `host` |
| NetUrl.ParsesComposedUrl | dlna/discovery.go:266-267 | parsing `scheme://host/path` gives back exactly that scheme and host |
| NetUrl.SchemeOfSchemePrefix | dlna/discovery.go:266-267 | the scheme parsed from `scheme:rest` is `scheme`, whatever `rest` is |
| NetUrl.SplitScheme | dlna/discovery.go:266 | `getScheme` and lower-casing: a leading run of scheme characters that starts with a letter and ends at ':' is the scheme, else there is none; `SplitsLowerScheme` proves it gives back `scheme` and `rest` from `scheme:rest` |
| NetUrl.SchemeAndHost | dlna/discovery.go:266-267 | the `Scheme` and `Host` of `url.Parse`: fragment and query cut off, the authority after "//" up to the next '/', the host after its last '@'; `ParsesComposedUrl` proves it recovers both from `scheme://host/path` |
| NetUrl.RemoveEmptyPort | dlna/discovery.go:266 | what `http.NewRequest` does to the parsed host: a trailing ':' is cut when a ':' comes after the last ']'; `RemoveEmptyPortTrims` states when it changes the host |
| NetUrl.RemoveEmptyPortTrims | dlna/discovery.go:266 | a host ending in ':' loses exactly that ':', whatever ']' it holds; any other host is kept |
| GoFmt.Decimal | dlna/control.go:89 | `%d` prints a non-empty run of digits with no leading zero |
| GoFmt.DecimalRoundTrip | dlna/control.go:89 | the printed digits read back as the number |
| GoFmt.DecimalInjective | dlna/control.go:89 | different numbers print differently |
| GoFmt.LeadingDigitsStop | dlna/control.go:89 | the run of digits a text starts with ends at the first non-digit |
| GoFmt.DecimalThenText | dlna/control.go:89 | a number printed before ": " and a text gives back both the number and the text |
| XmlText.XmlCharsCat | dlna/control.go:40 | a concatenation is made of XML characters exactly when both parts are |
| XmlText.EscapeChar | dlna/control.go:40 | each character is written as a non-empty run of XML characters, which starts with '&' exactly when it is a reference |
| XmlText.Escape | dlna/control.go:40 | `xml.EscapeText` writes only XML characters and never shortens its input |
| XmlText.EscapeCat | dlna/control.go:40 | escaping works character by character, so it distributes over concatenation |
| XmlText.Unescape | dlna/control.go:40 | the reading that undoes `xml.EscapeText`: each reference the escaper writes becomes its character, any other character is kept; `UnescapeEscape` proves it inverts `Escape` on XML characters |
| XmlText.ReferenceAt | dlna/control.go:40 | a recognised reference starts with '&' and lies within the text |
| XmlText.ReferenceOfEscape | dlna/control.go:40 | each reference the escaper writes is read as the character it replaced |
| XmlText.UnescapeEscapeChar | dlna/control.go:40 | reading back one escaped XML character gives that character and then the rest |
| XmlText.UnescapeEscape | dlna/control.go:36-41 | for text made of XML characters, unescaping the escape gives the text back exactly |
| XmlText.EscapeCharThenWellEscaped | dlna/control.go:40 | putting one escaped character in front keeps text free of '<' and '>', with every '&' beginning a reference |
| XmlText.EscapeIsWellEscaped | dlna/control.go:38-41 | every escape output is free of '<' and '>', and each of its '&' begins a reference |
| TextTemplate.Render | dlna/control.go:59-70 | `Execute` prints each piece in turn; its layouts are stated by `RenderCat`, `RenderNoFields`, `RenderOneField` and `RenderTwoFields` |
| TextTemplate.RenderPiece | dlna/control.go:59-70 | text prints as itself; a field prints its map value, or "<no value>" when the key is missing |
| TextTemplate.RenderCat | dlna/control.go:59-70 | rendering a sequence of templates renders each part in turn |
| TextTemplate.RenderNoFields | dlna/control.go:50 | a template without fields prints the same whatever the data is, nil included |
| TextTemplate.RenderOneField | dlna/control.go:66-70 | one field between two texts prints as head, value, tail, with nothing escaped |
| TextTemplate.RenderTwoFields | dlna/control.go:59-63 | two fields among three texts print their values in place, with nothing escaped |
| Discovery.SearchMessage | dlna/discovery.go:19-24 | the M-SEARCH request for one HOST value, with MAN "ssdp:discover", MX 1 and ST ssdp:all and CRLF line ends; `SearchHostRoundTrip` reads the HOST back |
| Discovery.SearchHost | dlna/discovery.go:19-24 | the HOST value of an M-SEARCH request, found between its fixed head and tail |
| Discovery.SearchHostRoundTrip | dlna/discovery.go:19-24 | the HOST value formatted into an M-SEARCH request is the one read back from it |
| Discovery.HeaderGet | dlna/discovery.go:197-199 | `Header.Get` gives the first value of the name, or "" when it has none |
| Discovery.PacketHeader | dlna/discovery.go:180-194 | request framing is tried first; a packet neither framing accepts yields no headers |
| Discovery.ExtractUuid | dlna/discovery.go:205 | the uuid is the prefix of the USN before its first "::", or the whole USN when it has none |
| Discovery.NoSeparatorInUuid | dlna/discovery.go:205 | no "::" starts inside the uuid part of `uuid::service` |
| Discovery.ExtractUuidOfServiceUsn | dlna/discovery.go:205 | `uuid:<id>::<service>` yields `uuid:<id>` |
| Discovery.ExtractUuidOfBareUsn | dlna/discovery.go:205 | a USN without "::" is kept whole |
| Discovery.Candidate | dlna/discovery.go:196-205 | headers name a candidate exactly when USN and Location are both non-empty; it is then the `ExtractUuid` of the USN with the Location and Server headers |
| Discovery.FirstAVTransport | dlna/discovery.go:247-253 | the index of the first service whose type contains "AVTransport", or none when no service does |
| Discovery.SelectedControlURL | dlna/discovery.go:247-253 | the control URL of the service `FirstAVTransport` finds, or  when there is none |
| Discovery.FindControlURL | dlna/discovery.go:247-253 | the loop that stops at the first match returns that service's control URL, or "" |
| Discovery.NormalizeControlURL | dlna/discovery.go:259-271 | a control URL starting with "http" is kept; every result ends with the control URL; the "/" case uses the host after `removeEmptyPort` |
| Discovery.NormalizeAbsolutePath | dlna/discovery.go:265-267 | "/x" against `scheme://host/path` becomes `scheme://host/x`, except that a host ending in an empty port ':' loses that ':' |
| Discovery.NormalizeRelative | dlna/discovery.go:260-269 | "x" against `dir/file` becomes `dir/x` |
| Discovery.NormalizeRelativeExample | dlna/discovery.go:261-269 | "ctrl" against `http://10.0.0.5:80/dir/desc.xml` becomes `http://10.0.0.5:80/dir/ctrl` |
| Discovery.HttpLocationScheme | dlna/discovery.go:264-266 | the scheme parsed from an http or https Location starts with "http" |
| Discovery.NormalizedIsAbsolute | dlna/discovery.go:259-271 | against an http(s) Location every control URL becomes one starting with "http" |
| Discovery.NormalizeIdempotent | dlna/discovery.go:259-271 | normalising twice against an http(s) Location changes nothing more |
| Discovery.ResolvedDevice | dlna/discovery.go:247-280 | no device without an AVTransport control URL; otherwise a record carrying the uuid, Location, Server, friendly name and time, with the first AVTransport service's control URL normalised against the Location |
| Discovery.NoAVTransportNoDevice | dlna/discovery.go:255-257 | a description without an AVTransport service yields no device |
| Discovery.FirstAVTransportDecides | dlna/discovery.go:248-253 | the first AVTransport service supplies the control URL, even when a later one also matches |
| Discovery.ResolvedControlURLAbsolute | dlna/discovery.go:259-279 | a device resolved from an http(s) Location stores a control URL starting with "http" |
| Discovery.Survivors | dlna/discovery.go:67-72 | a sweep keeps exactly the devices not expired, each unchanged |
| Discovery.SweepBoundary | dlna/discovery.go:68 | a device exactly five minutes old survives; one a nanosecond older is removed |
| Discovery.SweepIdempotent | dlna/discovery.go:64-73 | sweeping twice at the same time removes nothing more |
| Discovery.SweepMonotone | dlna/discovery.go:64-73 | a later sweep keeps no device that an earlier one removed |
| Discovery.NonLoopbackIps | dlna/discovery.go:331-335 | the IPs of the non-loopback IPNet addresses of one interface, in order; `NonLoopbackIpsMembers` states which |
| Discovery.EligibleIps | dlna/discovery.go:323-337 | the search sources of every up, multicast interface whose addresses could be read, in interface order; `EligibleIpsMembers` states which |
| Discovery.BindIPs | dlna/discovery.go:308-339 | the parsed bind IP alone, "invalid bind IP: " and the setting when it does not parse, the interface-listing error, or the eligible IPs; `GetBindIPs` is proved equal to it |
| Discovery.ListenFamilies | dlna/discovery.go:119-131 | both families, unless the bind setting parses as an IP, which keeps only its own family |
| Discovery.NonLoopbackIpsMembers | dlna/discovery.go:331-335 | an IP is collected from a list of addresses exactly when it appears there as a non-loopback IPNet |
| Discovery.EligibleIpsMembers | dlna/discovery.go:323-337 | an IP is a search source exactly when some up, multicast interface whose addresses could be read lists it as a non-loopback IPNet |
| Discovery.InvalidBindKeepsListening | dlna/discovery.go:119-131 | an unparseable bind setting yields no bind IPs but still listens on both families (getBindIPs refuses it at dlna/discovery.go:309-313) |
| Discovery.SearchFamiliesAreListened | dlna/discovery.go:119-131 | every search source's family is listened on (sendSearch picks the family at dlna/discovery.go:88-94) |
| Discovery.BindInterface | dlna/discovery.go:341-365 | no interface for the all-interfaces setting; else the first interface holding the bind IP, the listing error, or "interface not found for IP " and the setting; `GetInterface` is proved equal to it |
| Discovery.InterfaceWith | dlna/discovery.go:351-363 | the first interface that lists the bind IP as an IPNet, or none when no interface lists it |
| Discovery.SearchFrom | dlna/discovery.go:88-108 | the datagram sent from one IP; `SearchFromGroup` states its network, group and HOST |
| Discovery.SearchFromGroup | dlna/discovery.go:88-108 | a datagram from an IPv4 source goes over udp4 to the IPv4 group, otherwise over udp6 to the IPv6 group, and carries that group as its HOST value |
| Discovery.SearchPlan | dlna/discovery.go:84-114 | the datagrams `sendSearch` writes: one from each bind IP whose socket opens, in order; `SearchPlanDatagrams` states their properties |
| Discovery.SearchPlanDatagrams | dlna/discovery.go:84-114 | at most one datagram per bind IP, each from an IP whose socket opened, each carrying its own group as HOST |
| Discovery.Handled | dlna/discovery.go:196-222 | the effect of `handleHeaders` as a relation between the registry before and after: nothing for headers without a candidate, a `lastSeen` refresh for a registered uuid, the candidate handed on for an unregistered one |
| Discovery.HandledKeepsEntries | dlna/discovery.go:196-222 | handling headers adds and removes no entry, changes nothing but the advertised uuid's `lastSeen`, and hands on the candidate exactly when its uuid is not registered |
| Discovery.DiscoveryService.constructor | dlna/discovery.go:34-40 | an empty registry with the given settings |
| Discovery.DiscoveryService.HandleHeaders | dlna/discovery.go:196-222 | the registry and the candidate handed on are related as `Handled` says: headers lacking USN or Location change nothing; an unknown uuid is handed on for resolution; a known uuid has only its `lastSeen` refreshed |
| Discovery.DiscoveryService.ProcessPacket | dlna/discovery.go:180-194 | the headers `PacketHeader` picks (request framing first) are handled exactly as `Handled` says; a packet neither framing accepts changes nothing |
| Discovery.DiscoveryService.CompleteResolution | dlna/discovery.go:247-287 | a device is added exactly when the description resolves and its uuid is absent; only that key changes; otherwise the registry is untouched, so the first resolution wins |
| Discovery.DiscoveryService.Sweep | dlna/discovery.go:64-73 | deleting while ranging over the registry leaves exactly the survivors |
| Discovery.DiscoveryService.GetDevices | dlna/discovery.go:290-298 | every registered device exactly once, in some order |
| Discovery.DiscoveryService.GetDevice | dlna/discovery.go:300-304 | the device registered under the key, or none when there is none |
| Discovery.DiscoveryService.GetBindIPs | dlna/discovery.go:308-339 | the nested loops compute the parsed bind IP, the invalid-IP error, the interface error, or the eligible IPs in order |
| Discovery.DiscoveryService.GetInterface | dlna/discovery.go:341-365 | none for all interfaces; otherwise the first interface holding the bind IP, or the not-found error |
| Discovery.DiscoveryService.ListenMulticast | dlna/discovery.go:117-160 | one listener per chosen family, joined on the bind interface, or on the default one when the lookup fails |
| Discovery.DiscoveryService.SendSearch | dlna/discovery.go:77-115 | no datagram without bind IPs; otherwise one M-SEARCH per bind IP whose socket opens, in order |
| Control.Metadata | dlna/control.go:32-43 | empty exactly when the title is empty; always free of '<' and '>', with each '&' beginning a reference, and made of XML characters |
| Control.DidlOpenIsXml | dlna/control.go:36 | the DIDL-Lite opening tag is made of XML characters |
| Control.DidlFrameIsXml | dlna/control.go:36 | the fixed text of the DIDL-Lite item is made of XML characters |
| Control.DidlLite | dlna/control.go:36 | the DIDL-Lite item with the title and the media URL in place; `MetadataRoundTrip` shows `Metadata` escapes exactly this text |
| Control.MetadataRoundTrip | dlna/control.go:33-42 | for a non-empty title and a URL of XML characters, unescaping the metadata gives the DIDL-Lite item with both put in raw |
| Control.SetUriBodyLayout | dlna/control.go:19-23 | the media URL goes unescaped into `CurrentURI` and the metadata into `CurrentURIMetaData` |
| Control.PlayBodyText | dlna/control.go:25-28 | the Play body is its fixed text whatever data it is given |
| Control.EnvelopeFramesBody | dlna/control.go:12-17 | the action body sits unchanged between the envelope's `<s:Body>` head and its tail |
| Control.Envelope | dlna/control.go:65-70 | the SOAP envelope template rendered with the body as its one field; `EnvelopeFramesBody` shows the body sits unchanged inside it |
| Control.SoapAction | dlna/control.go:78 | the quoted AVTransport service type, '#', and the action; `SoapActionNamesAction` reads the action back |
| Control.SoapActionNamesAction | dlna/control.go:78 | the SOAPAction header is the quoted AVTransport type, '#', and the action, which can be read back from it |
| Control.ActionRequestCarries | dlna/control.go:57-78 | a POST goes to the control URL with the XML content type, names its action, and carries the rendered body in its envelope |
| Control.ActionRequest | dlna/control.go:57-78 | the POST for one action: the control URL, the XML content type, the SOAPAction header and the envelope of the rendered body; `ActionRequestCarries` states what it carries |
| Control.CheckReply | dlna/control.go:81-92 | only status 200 succeeds; any other status is an error holding that status and body; a transport failure is its own error |
| Control.StatusErrorTextDetermines | dlna/control.go:89 | the error text of a non-200 reply gives back both its status code and its body |
| Control.SoapErrorText | dlna/control.go:89 | "SOAP request failed with status ", the status and ": " before the body, or the transport's own error text; `StatusErrorTextDetermines` reads status and body back |
| Control.PlayErrorText | dlna/control.go:45-52 | the `%w` wrapping of a step's error behind "SetAVTransportURI failed: " or "Play failed: " |
| Control.PlayErrorTextDetermines | dlna/control.go:45-52 | the wrapped error text tells which step failed and gives back the text of its cause |
| Control.Transport.constructor | dlna/control.go:80 | a client with nothing sent and the given replies to come |
| Control.Transport.Post | dlna/control.go:81 | a POST is recorded and answered by the next reply |
| Control.SendSoapAction | dlna/control.go:57-93 | exactly one POST, of the rendered request, and the status check of its reply |
| Control.PlaySequence | dlna/control.go:30-55 | SetAVTransportURI always goes first; Play is sent exactly when it succeeds; success exactly when both replies are 200; a failure names its step and cause |
| Control.PlaySucceeds | dlna/control.go:45-54 | two 200 replies give exactly two POSTs, SetAVTransportURI then Play, and success |
| Control.PlayReportsSetUriStatus | dlna/control.go:45-47 | a non-200 answer to SetAVTransportURI stops after one POST with an error naming the step, the status and the body |
| Control.Play | dlna/control.go:30-55 | the POSTs sent, the replies used and the result are those of `PlaySequence` |
| Api.HttpError | api/handlers.go:37 | `http.Error` answers with the code and the message followed by a line feed |
| Api.Matches | api/handlers.go:73 | a device matches when its USN or its friendly name contains the pattern |
| Api.TargetFor | api/handlers.go:59-78 | the explicit USN, else `defaultID`, else "" for an empty pattern, else a matching registered key or "", where "" means that no match has a non-empty USN or that a matching device is keyed "" (map order decides which match comes first) |
| Api.Dispatch | api/handlers.go:80-97 | no target gives 400 and an unregistered target 404, both with no POST; otherwise `Play` runs without a title, and the answer is 200 "Casting to" the friendly name exactly when it succeeds, else 500 with its error |
| Api.UnregisteredDefaultIsNotFound | api/handlers.go:63-89 | a default device that is not registered gives 404 and no POST |
| Api.EmptyRegistryHasNoTarget | api/handlers.go:70-83 | with nothing registered and no USN or default device there is no target, whatever the pattern |
| Api.Handler.constructor | api/handlers.go:19-24 | a handler with the registry and pattern and no default device |
| Api.Handler.ListDevices | api/handlers.go:26-30 | 200 and every registered device exactly once; an empty registry lists none |
| Api.Handler.SetDefaultDevice | api/handlers.go:32-47 | a decoded request replaces `defaultID` with its USN and answers 200; a malformed one answers 400 and leaves `defaultID` unchanged |
| Api.Handler.ResolveTarget | api/handlers.go:59-78 | the explicit USN, else `defaultID`, else for a non-empty pattern a device whose USN or friendly name contains it; no target only when no device matches or the first match has an empty USN |
| Api.Handler.Cast | api/handlers.go:49-98 | a malformed body gives 400 with no POST; otherwise the answer and the POSTs are those of `Dispatch` for a target `ResolveTarget` may choose |

## Left out

- Sockets, multicast membership, read buffers and datagram I/O: packets arrive already parsed, and `sendSearch` takes a predicate saying which source sockets open. `net.ResolveUDPAddr` on the two constant groups is taken to succeed.
- Goroutines, the `sync` locks and the tickers of `searchLoop` and `cleanupLoop`: each operation is one atomic step, and time is a parameter. The gap between `handleHeaders` and the insertion in `fetchDescription` is the pair of calls `HandleHeaders` and `CompleteResolution`.
- `http.ReadRequest`, `http.ReadResponse`, `http.Get` and the XML decoding of descriptions: their outcomes are inputs. A failed fetch or decode is simply never followed by a `CompleteResolution` call.
- Header name canonicalisation and `Header.Get`'s case folding: headers arrive keyed by canonical name.
- JSON encoding and decoding, `ResponseWriter` headers and the `Content-Type` of the device list: requests arrive decoded and answers are status and body.
- Logging.
- Parsing of the constant templates: each one is given as its sequence of text and fields.
- `Discovery.DiscoveryService.GetDevices`: the Go code returns pointers into the registry, so a caller could change a record through them; the model returns copies.
- NetUrl: models `url.Parse` only for what the resolver reads, followed by the `removeEmptyPort` step of `http.NewRequest`. Percent-decoding, port and IPv6-literal validation, and parse errors are not modelled. A parse error cannot occur here because `http.Get` has already accepted the Location.
- `Control.SendSoapAction`: does not model `http.NewRequest` rejecting a control URL before any POST, or the request's own error text. A transport failure carries whatever reason the transport gives. When its script of replies runs out, the model `Transport` answers with the failure "no reply".
- No HTTP timeout is modelled, because the client itself sets none.
- XmlText: strings are sequences of Unicode scalar values, so invalid UTF-8 (which `xml.EscapeText` also writes as U+FFFD) cannot arise. `Unescape` reads only the references the escaper writes, not every XML reference.
- GoFmt: status codes are natural numbers. `net/http` restricts them to three digits, which the model does not need.
- Time is an unbounded integer of nanoseconds; `time.Time` overflow and the monotonic clock are not modelled.
- Search scheduling (`interval`) is kept as a field but not used.
- The `NormalizeControlURL` example with "/ctrl" against `http://10.0.0.5:80/dir/desc.xml` is covered by `Discovery.NormalizeAbsolutePath` for all schemes, hosts and paths rather than by a lemma about that one string.
