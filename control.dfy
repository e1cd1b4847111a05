/**
 * The AVTransport control client: the DIDL-Lite metadata of a media item,
 * the SOAP envelopes of the SetAVTransportURI and Play actions (UPnP
 * AVTransport:1, invoked as in UPnP Device Architecture 1.1, section
 * 3.2.1), and the two-step `Play` sequence run against a transport that
 * records every POST and answers from a script.
 */
module Control {
  import opened Wrappers
  import opened GoStrings
  import opened GoFmt
  import opened XmlText
  import opened TextTemplate

  const AVTransportService := "urn:schemas-upnp-org:service:AVTransport:1"

  // ----- DIDL-Lite metadata -----

  const DidlNamespace := "urn:schemas-upnp-org:metadata-1-0/DIDL-Lite/"
  const DublinCoreNamespace := "http://purl.org/dc/elements/1.1/"
  const UpnpNamespace := "urn:schemas-upnp-org:metadata-1-0/upnp/"
  const DidlOpen := "<DIDL-Lite xmlns=\"" + DidlNamespace + "\" xmlns:dc=\"" + DublinCoreNamespace
    + "\" xmlns:upnp=\"" + UpnpNamespace + "\">"
  const ItemOpen := "<item id=\"0\" parentID=\"0\" restricted=\"1\">"
  const VideoItem := "object.item.videoItem"
  const ItemClass := "<upnp:class>" + VideoItem + "</upnp:class>"
  const ResOpen := "<res protocolInfo=\"http-get:*:*:*\">"

  /** The fragment up to the title, between title and media URL, and after the media URL. */
  const DidlHead := DidlOpen + ItemOpen + "<dc:title>"
  const DidlMid := "</dc:title>" + ItemClass + ResOpen
  const DidlTail := "</res></item></DIDL-Lite>"

  /** The DIDL-Lite item describing the media, with title and URL put in as they are. */
  function DidlLite(title: string, mediaURL: string): string
  {
    DidlHead + title + DidlMid + mediaURL + DidlTail
  }

  /** The `CurrentURIMetaData` argument: nothing without a title, else the escaped DIDL-Lite item. */
  function Metadata(title: string, mediaURL: string): (r: string)
    ensures r == "" <==> title == ""
    ensures WellEscaped(r)
    ensures XmlChars(r)
  {
    if title == "" then ""
    else
      var raw := DidlLite(title, mediaURL);
      EscapeIsWellEscaped(raw);
      Escape(raw)
  }

  // The fixed pieces of the fragment, one short literal at a time.
  lemma DidlNamespaceIsXml() ensures XmlChars(DidlNamespace) {}
  lemma DublinCoreNamespaceIsXml() ensures XmlChars(DublinCoreNamespace) {}
  lemma UpnpNamespaceIsXml() ensures XmlChars(UpnpNamespace) {}
  lemma ItemOpenIsXml() ensures XmlChars(ItemOpen) {}
  lemma ItemClassIsXml()
    ensures XmlChars(ItemClass)
  {
    assert XmlChars("<upnp:class>") && XmlChars(VideoItem) && XmlChars("</upnp:class>");
    XmlCharsCat("<upnp:class>", VideoItem);
    XmlCharsCat("<upnp:class>" + VideoItem, "</upnp:class>");
  }
  lemma ResOpenIsXml() ensures XmlChars(ResOpen) {}

  lemma DidlOpenIsXml()
    ensures XmlChars(DidlOpen)
  {
    DidlNamespaceIsXml();
    DublinCoreNamespaceIsXml();
    UpnpNamespaceIsXml();
    assert XmlChars("<DIDL-Lite xmlns=\"") && XmlChars("\" xmlns:dc=\"") && XmlChars("\" xmlns:upnp=\"")
      && XmlChars("\">");
    XmlCharsCat("<DIDL-Lite xmlns=\"", DidlNamespace);
    XmlCharsCat("<DIDL-Lite xmlns=\"" + DidlNamespace, "\" xmlns:dc=\"");
    XmlCharsCat("<DIDL-Lite xmlns=\"" + DidlNamespace + "\" xmlns:dc=\"", DublinCoreNamespace);
    XmlCharsCat("<DIDL-Lite xmlns=\"" + DidlNamespace + "\" xmlns:dc=\"" + DublinCoreNamespace, "\" xmlns:upnp=\"");
    XmlCharsCat("<DIDL-Lite xmlns=\"" + DidlNamespace + "\" xmlns:dc=\"" + DublinCoreNamespace
      + "\" xmlns:upnp=\"", UpnpNamespace);
    XmlCharsCat("<DIDL-Lite xmlns=\"" + DidlNamespace + "\" xmlns:dc=\"" + DublinCoreNamespace
      + "\" xmlns:upnp=\"" + UpnpNamespace, "\">");
  }

  /** The fixed text of the fragment is made of XML characters. */
  lemma DidlFrameIsXml()
    ensures XmlChars(DidlHead) && XmlChars(DidlMid) && XmlChars(DidlTail)
  {
    DidlOpenIsXml();
    ItemOpenIsXml();
    ItemClassIsXml();
    ResOpenIsXml();
    assert XmlChars("<dc:title>") && XmlChars("</dc:title>");
    XmlCharsCat(DidlOpen, ItemOpen);
    XmlCharsCat(DidlOpen + ItemOpen, "<dc:title>");
    XmlCharsCat("</dc:title>", ItemClass);
    XmlCharsCat("</dc:title>" + ItemClass, ResOpen);
    assert XmlChars(DidlTail);
  }

  /** Reading the metadata back gives the DIDL-Lite item exactly, for a title and URL of XML characters. */
  lemma MetadataRoundTrip(title: string, mediaURL: string)
    requires title != "" && XmlChars(title) && XmlChars(mediaURL)
    ensures Unescape(Metadata(title, mediaURL)) == DidlLite(title, mediaURL)
  {
    DidlFrameIsXml();
    XmlCharsCat(DidlHead, title);
    XmlCharsCat(DidlHead + title, DidlMid);
    XmlCharsCat(DidlHead + title + DidlMid, mediaURL);
    XmlCharsCat(DidlHead + title + DidlMid + mediaURL, DidlTail);
    UnescapeEscape(DidlLite(title, mediaURL));
  }

  // ----- SOAP envelopes -----

  const EnvelopeHead := "<?xml version=\"1.0\" encoding=\"utf-8\"?>\n"
    + "<s:Envelope xmlns:s=\"http://schemas.xmlsoap.org/soap/envelope/\""
    + " s:encodingStyle=\"http://schemas.xmlsoap.org/soap/encoding/\">\n  <s:Body>\n    "
  const EnvelopeTail := "\n  </s:Body>\n</s:Envelope>"

  /** The envelope template: the action body placed inside `<s:Body>`. */
  const SoapEnvelope: Template := [Text(EnvelopeHead), Field("Body"), Text(EnvelopeTail)]

  const SetUriHead := "<u:SetAVTransportURI xmlns:u=\"" + AVTransportService + "\">\n"
    + "  <InstanceID>0</InstanceID>\n  <CurrentURI>"
  const SetUriMid := "</CurrentURI>\n  <CurrentURIMetaData>"
  const SetUriTail := "</CurrentURIMetaData>\n</u:SetAVTransportURI>"

  /** The SetAVTransportURI body template, with the media URL and its metadata as fields. */
  const SetAVTransportURIBody: Template :=
    [Text(SetUriHead), Field("MediaURL"), Text(SetUriMid), Field("MetaData"), Text(SetUriTail)]

  const PlayText := "<u:Play xmlns:u=\"" + AVTransportService + "\">\n"
    + "  <InstanceID>0</InstanceID>\n  <Speed>1</Speed>\n</u:Play>"

  /** The Play body template, which has no fields. */
  const PlayBody: Template := [Text(PlayText)]

  /** The data the SetAVTransportURI body is rendered with. */
  function SetUriData(mediaURL: string, metaData: string): map<string, string>
  {
    map["MediaURL" := mediaURL, "MetaData" := metaData]
  }

  /** The media URL goes into `CurrentURI` as it is, unescaped, and the metadata into `CurrentURIMetaData`. */
  lemma SetUriBodyLayout(mediaURL: string, metaData: string)
    ensures Render(SetAVTransportURIBody, SetUriData(mediaURL, metaData))
         == SetUriHead + mediaURL + SetUriMid + metaData + SetUriTail
  {
    RenderTwoFields(SetUriHead, "MediaURL", SetUriMid, "MetaData", SetUriTail, SetUriData(mediaURL, metaData));
  }

  /** The Play body is its literal text, whatever data it is given. */
  lemma PlayBodyText(data: map<string, string>)
    ensures Render(PlayBody, data) == PlayText
  {
    assert PlayBody[1..] == [];
  }

  /** The rendered envelope. */
  function Envelope(body: string): string
  {
    Render(SoapEnvelope, map["Body" := body])
  }

  /** The action body sits unchanged between the envelope's head and tail. */
  lemma EnvelopeFramesBody(body: string)
    ensures Between(Envelope(body), EnvelopeHead, EnvelopeTail) == Some(body)
  {
    RenderOneField(EnvelopeHead, "Body", EnvelopeTail, map["Body" := body]);
    BetweenFramed(EnvelopeHead, body, EnvelopeTail);
  }

  const XmlContentType := "text/xml; charset=\"utf-8\""
  const SoapActionHead := "\"" + AVTransportService + "#"

  /** The SOAPAction header of an AVTransport action (SOAP 1.1, section 6.1.1): quoted service type, '#', action. */
  function SoapAction(action: string): string
  {
    SoapActionHead + action + "\""
  }

  /** The action is read back from its SOAPAction header. */
  lemma SoapActionNamesAction(action: string)
    ensures Between(SoapAction(action), SoapActionHead, "\"") == Some(action)
  {
    BetweenFramed(SoapActionHead, action, "\"");
  }

  /** A POST as the transport sees it. */
  datatype SoapRequest = SoapRequest(url: string, contentType: string, soapAction: string, envelope: string)

  /** The rendering part of `sendSOAPAction`: the request for one action. */
  function ActionRequest(controlURL: string, action: string, body: Template, data: map<string, string>): SoapRequest
  {
    SoapRequest(controlURL, XmlContentType, SoapAction(action), Envelope(Render(body, data)))
  }

  /** An action's request goes to the control URL as XML, names the action, and carries the rendered body in its envelope. */
  lemma ActionRequestCarries(controlURL: string, action: string, body: Template, data: map<string, string>)
    ensures var r := ActionRequest(controlURL, action, body, data);
      && r.url == controlURL && r.contentType == XmlContentType
      && Between(r.soapAction, SoapActionHead, "\"") == Some(action)
      && Between(r.envelope, EnvelopeHead, EnvelopeTail) == Some(Render(body, data))
  {
    SoapActionNamesAction(action);
    EnvelopeFramesBody(Render(body, data));
  }

  // ----- Replies and errors -----

  /** What the transport answers a POST with: a status and body, or a failure to deliver. */
  datatype Reply = Response(status: nat, body: string) | Failure(reason: string)

  const StatusOK := 200

  /** Why an action failed: a non-200 status with its body, or the transport's own error. */
  datatype SoapError = StatusError(status: nat, body: string) | TransportError(reason: string)

  /** The status check of `sendSOAPAction`: only 200 succeeds; any other status keeps its code and body. */
  function CheckReply(reply: Reply): (e: Option<SoapError>)
    ensures e.None? <==> reply.Response? && reply.status == StatusOK
    ensures reply.Response? && reply.status != StatusOK ==> e == Some(StatusError(reply.status, reply.body))
    ensures reply.Failure? ==> e == Some(TransportError(reply.reason))
  {
    match reply
    case Response(status, body) => if status == StatusOK then None else Some(StatusError(status, body))
    case Failure(reason) => Some(TransportError(reason))
  }

  const StatusErrorHead := "SOAP request failed with status "

  /** The error text `sendSOAPAction` returns. */
  function SoapErrorText(e: SoapError): string
  {
    match e
    case StatusError(status, body) => StatusErrorHead + Decimal(status) + ": " + body
    case TransportError(reason) => reason
  }

  /** The text of a status error gives back both its status code and the response body. */
  lemma StatusErrorTextDetermines(s1: nat, b1: string, s2: nat, b2: string)
    requires SoapErrorText(StatusError(s1, b1)) == SoapErrorText(StatusError(s2, b2))
    ensures s1 == s2 && b1 == b2
  {
    var t1, t2 := Decimal(s1) + ": " + b1, Decimal(s2) + ": " + b2;
    assert StatusErrorHead + Decimal(s1) + ": " + b1 == StatusErrorHead + t1;
    assert StatusErrorHead + Decimal(s2) + ": " + b2 == StatusErrorHead + t2;
    CancelHead(StatusErrorHead, t1, t2);
    DecimalThenText(s1, b1, s2, b2);
  }

  /** Which step of `Play` failed, and why. */
  datatype PlayError = SetUriFailed(cause: SoapError) | PlayFailed(cause: SoapError)

  /** The error text `Play` returns, wrapping the step's error. */
  function PlayErrorText(e: PlayError): string
  {
    match e
    case SetUriFailed(cause) => "SetAVTransportURI failed: " + SoapErrorText(cause)
    case PlayFailed(cause) => "Play failed: " + SoapErrorText(cause)
  }

  /** The error text names the step that failed and gives back its cause's text. */
  lemma PlayErrorTextDetermines(e1: PlayError, e2: PlayError)
    requires PlayErrorText(e1) == PlayErrorText(e2)
    ensures e1.SetUriFailed? == e2.SetUriFailed?
    ensures SoapErrorText(e1.cause) == SoapErrorText(e2.cause)
  {
    assert PlayErrorText(e1)[0] == (if e1.SetUriFailed? then 'S' else 'P');
    assert PlayErrorText(e2)[0] == (if e2.SetUriFailed? then 'S' else 'P');
    var head := if e1.SetUriFailed? then "SetAVTransportURI failed: " else "Play failed: ";
    CancelHead(head, SoapErrorText(e1.cause), SoapErrorText(e2.cause));
  }

  // ----- The transport and the Play sequence -----

  /** The failure a transport reports once its script of replies is used up. */
  const NoReply := Failure("no reply")

  /** The reply the next POST receives. */
  function NextReply(replies: seq<Reply>): Reply
  {
    if replies == [] then NoReply else replies[0]
  }

  /** The replies left after `n` POSTs. */
  function Drop(replies: seq<Reply>, n: nat): seq<Reply>
  {
    if n <= |replies| then replies[n..] else []
  }

  /** Dropping replies in two steps drops them all at once. */
  lemma DropDrop(replies: seq<Reply>, a: nat, b: nat)
    ensures Drop(Drop(replies, a), b) == Drop(replies, a + b)
  {
    if a + b <= |replies| {
      assert replies[a..][b..] == replies[a + b..];
    }
  }

  /**
   * The HTTP client behind `sendSOAPAction`: every POST is recorded in
   * `sent` and answered by the next scripted reply.
   */
  class Transport {
    var sent: seq<SoapRequest>
    var replies: seq<Reply>

    constructor (replies: seq<Reply>)
      ensures sent == [] && this.replies == replies
    {
      sent := [];
      this.replies := replies;
    }

    method Post(req: SoapRequest) returns (reply: Reply)
      modifies this
      ensures sent == old(sent) + [req]
      ensures reply == NextReply(old(replies))
      ensures replies == Drop(old(replies), 1)
    {
      sent := sent + [req];
      reply := NextReply(replies);
      if replies != [] {
        replies := replies[1..];
      }
    }
  }

  /** `sendSOAPAction`: render, POST once, and check the status. */
  method SendSoapAction(transport: Transport, controlURL: string, action: string, body: Template,
                        data: map<string, string>) returns (err: Option<SoapError>)
    modifies transport
    ensures transport.sent == old(transport.sent) + [ActionRequest(controlURL, action, body, data)]
    ensures transport.replies == Drop(old(transport.replies), 1)
    ensures err == CheckReply(NextReply(old(transport.replies)))
  {
    var rendered := Render(body, data);
    var envelope := Render(SoapEnvelope, map["Body" := rendered]);
    var req := SoapRequest(controlURL, XmlContentType, SoapAction(action), envelope);
    var reply := transport.Post(req);
    err := CheckReply(reply);
  }

  /** The SetAVTransportURI request `Play` sends first. */
  function SetUriRequest(controlURL: string, mediaURL: string, title: string): SoapRequest
  {
    ActionRequest(controlURL, "SetAVTransportURI", SetAVTransportURIBody,
                  SetUriData(mediaURL, Metadata(title, mediaURL)))
  }

  /** The Play request `Play` sends second. */
  function PlayRequest(controlURL: string): SoapRequest
  {
    ActionRequest(controlURL, "Play", PlayBody, map[])
  }

  /** The POSTs a `Play` call makes, in order, and its result. */
  datatype PlayRun = PlayRun(posts: seq<SoapRequest>, result: Option<PlayError>)

  /**
   * What `Play` does given the replies its POSTs will receive: the Play
   * action is sent only after SetAVTransportURI succeeds, and the call
   * succeeds only when both replies are 200.
   */
  function PlaySequence(controlURL: string, mediaURL: string, title: string, replies: seq<Reply>): (run: PlayRun)
    ensures 1 <= |run.posts| <= 2
    ensures run.posts[0] == SetUriRequest(controlURL, mediaURL, title)
    ensures |run.posts| == 1 <==> CheckReply(NextReply(replies)).Some?
    ensures CheckReply(NextReply(replies)).Some? ==>
      run.result == Some(SetUriFailed(CheckReply(NextReply(replies)).value))
    ensures |run.posts| == 2 ==> run.posts[1] == PlayRequest(controlURL)
    ensures run.result.None? <==>
      CheckReply(NextReply(replies)).None? && CheckReply(NextReply(Drop(replies, 1))).None?
    ensures CheckReply(NextReply(replies)).None? && CheckReply(NextReply(Drop(replies, 1))).Some? ==>
      run.result == Some(PlayFailed(CheckReply(NextReply(Drop(replies, 1))).value))
  {
    var first := SetUriRequest(controlURL, mediaURL, title);
    match CheckReply(NextReply(replies))
    case Some(e) => PlayRun([first], Some(SetUriFailed(e)))
    case None =>
      match CheckReply(NextReply(Drop(replies, 1)))
      case Some(e) => PlayRun([first, PlayRequest(controlURL)], Some(PlayFailed(e)))
      case None => PlayRun([first, PlayRequest(controlURL)], None)
  }

  /** When both replies are 200, exactly two POSTs go out, SetAVTransportURI then Play, and the call succeeds. */
  lemma PlaySucceeds(controlURL: string, mediaURL: string, title: string, replies: seq<Reply>)
    requires |replies| >= 2
    requires replies[0].Response? && replies[0].status == StatusOK
    requires replies[1].Response? && replies[1].status == StatusOK
    ensures PlaySequence(controlURL, mediaURL, title, replies)
         == PlayRun([SetUriRequest(controlURL, mediaURL, title), PlayRequest(controlURL)], None)
  {
    assert Drop(replies, 1)[0] == replies[1];
  }

  /** A non-200 answer to SetAVTransportURI is reported with its status and body after a single POST. */
  lemma PlayReportsSetUriStatus(controlURL: string, mediaURL: string, title: string, replies: seq<Reply>)
    requires replies != [] && replies[0].Response? && replies[0].status != StatusOK
    ensures var run := PlaySequence(controlURL, mediaURL, title, replies);
      && run.posts == [SetUriRequest(controlURL, mediaURL, title)]
      && run.result == Some(SetUriFailed(StatusError(replies[0].status, replies[0].body)))
      && PlayErrorText(run.result.value)
         == "SetAVTransportURI failed: " + SoapErrorText(StatusError(replies[0].status, replies[0].body))
  {
  }

  /** `Play`: SetAVTransportURI with the media URL and its metadata, then Play, stopping at the first failure. */
  method Play(transport: Transport, controlURL: string, mediaURL: string, title: string)
    returns (err: Option<PlayError>)
    modifies transport
    ensures var run := PlaySequence(controlURL, mediaURL, title, old(transport.replies));
      && transport.sent == old(transport.sent) + run.posts
      && transport.replies == Drop(old(transport.replies), |run.posts|)
      && err == run.result
  {
    var metaData := Metadata(title, mediaURL);
    var e1 := SendSoapAction(transport, controlURL, "SetAVTransportURI", SetAVTransportURIBody,
                             SetUriData(mediaURL, metaData));
    if e1.Some? {
      return Some(SetUriFailed(e1.value));
    }
    var e2 := SendSoapAction(transport, controlURL, "Play", PlayBody, map[]);
    if e2.Some? {
      DropDrop(old(transport.replies), 1, 1);
      return Some(PlayFailed(e2.value));
    }
    DropDrop(old(transport.replies), 1, 1);
    err := None;
  }
}
