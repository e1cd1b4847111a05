/**
 * The HTTP API: listing the registry, setting the default device, and
 * casting a media URL to a target chosen by an explicit USN, then the
 * default device, then the configured name pattern. Responses are given
 * as status and body; `http.Error` writes its message followed by a line
 * feed.
 */
module Api {
  import opened Wrappers
  import opened GoStrings
  import opened DeviceRecord
  import opened Discovery
  import opened Control

  /** The outcome of decoding a JSON request body. */
  datatype Decoded<T> = Malformed(message: string) | Decoded(value: T)

  /** The body of a cast request; a field missing from the JSON is empty. */
  datatype CastRequest = CastRequest(url: string, usn: string)

  datatype HttpResponse = HttpResponse(status: nat, body: string)

  const StatusBadRequest := 400
  const StatusNotFound := 404
  const StatusInternalServerError := 500

  /** `http.Error(w, msg, code)`. */
  function HttpError(msg: string, code: nat): (r: HttpResponse)
    ensures r.status == code && r.body == msg + "\n"
  {
    HttpResponse(code, msg + "\n")
  }

  const NoTargetMessage := "Please specify a device or set a default device first."
  const NotFoundMessage := "Device not found"

  /** The pattern match of `CastHandler`: the USN or the friendly name contains the pattern. */
  predicate Matches(d: Device, pattern: string)
  {
    Contains(d.usn, pattern) || Contains(d.friendlyName, pattern)
  }

  /**
   * The targets `CastHandler` may settle on: the explicit USN, else the
   * default device, else (for a non-empty pattern) the USN of the first
   * matching device in whatever order the registry is listed, else none
   * (""). The first match may itself have an empty USN, keyed "".
   */
  predicate TargetFor(requested: string, defaultID: string, pattern: string,
                      devices: map<string, Device>, target: string)
  {
    if requested != "" then target == requested
    else if defaultID != "" then target == defaultID
    else if pattern == "" then target == ""
    else
      && (target != "" ==> target in devices && Matches(devices[target], pattern))
      && ((forall u | u in devices && Matches(devices[u], pattern) :: u == "") ==> target == "")
      && (target == "" ==>
            (forall u | u in devices && Matches(devices[u], pattern) :: u == "")
            || ("" in devices && Matches(devices[""], pattern)))
  }

  /** What `CastHandler` answers once the target is chosen, and the POSTs it makes. */
  datatype CastOutcome = CastOutcome(response: HttpResponse, posts: seq<SoapRequest>)

  /**
   * The decision chain of `CastHandler` after target selection: no target
   * is a 400, an unregistered one a 404, both without any POST; otherwise
   * `Play` runs against the device's control URL without a title, and its
   * error is a 500 while success is a 200 naming the device.
   */
  function Dispatch(target: string, devices: map<string, Device>, mediaURL: string, replies: seq<Reply>)
    : (o: CastOutcome)
    ensures target == "" ==> o == CastOutcome(HttpError(NoTargetMessage, StatusBadRequest), [])
    ensures target != "" && target !in devices ==> o == CastOutcome(HttpError(NotFoundMessage, StatusNotFound), [])
    ensures target != "" && target in devices ==>
      var run := PlaySequence(devices[target].controlURL, mediaURL, "", replies);
      && o.posts == run.posts
      && (o.response.status == StatusOK <==> run.result.None?)
      && (run.result.None? ==> o.response.body == "Casting to " + devices[target].friendlyName)
      && (run.result.Some? ==>
            o.response == HttpError("Failed to cast: " + PlayErrorText(run.result.value), StatusInternalServerError))
  {
    if target == "" then
      CastOutcome(HttpError(NoTargetMessage, StatusBadRequest), [])
    else if target !in devices then
      CastOutcome(HttpError(NotFoundMessage, StatusNotFound), [])
    else
      var device := devices[target];
      var run := PlaySequence(device.controlURL, mediaURL, "", replies);
      match run.result
      case Some(err) =>
        CastOutcome(HttpError("Failed to cast: " + PlayErrorText(err), StatusInternalServerError), run.posts)
      case None =>
        CastOutcome(HttpResponse(StatusOK, "Casting to " + device.friendlyName), run.posts)
  }

  /**
   * With a default device set but not registered, a cast without USN is
   * refused with 404 and sends nothing, whatever the request's URL.
   */
  lemma UnregisteredDefaultIsNotFound(defaultID: string, pattern: string, devices: map<string, Device>,
                                      mediaURL: string, replies: seq<Reply>, target: string)
    requires defaultID != "" && defaultID !in devices
    requires TargetFor("", defaultID, pattern, devices, target)
    ensures Dispatch(target, devices, mediaURL, replies) == CastOutcome(HttpError(NotFoundMessage, StatusNotFound), [])
  {
  }

  /** With nothing registered and no USN or default, there is no target, whatever the pattern. */
  lemma EmptyRegistryHasNoTarget(pattern: string, target: string)
    requires TargetFor("", "", pattern, map[], target)
    ensures target == ""
  {
  }

  /** The request handlers, sharing the discovery registry. */
  class Handler {
    const discovery: DiscoveryService
    /** The device set through `SetDefaultDevice`; empty when none is set. */
    var defaultID: string
    const defaultPattern: string

    /** `NewHandler`: no default device yet. */
    constructor (discovery: DiscoveryService, pattern: string)
      ensures this.discovery == discovery && defaultPattern == pattern && defaultID == ""
    {
      this.discovery := discovery;
      defaultPattern := pattern;
      defaultID := "";
    }

    /** `ListDevicesHandler`: 200 with every registered device; an empty registry lists none. */
    method ListDevices() returns (status: nat, devices: seq<Device>)
      requires discovery.Valid()
      ensures status == StatusOK
      ensures |devices| == |discovery.devices|
      ensures forall i :: 0 <= i < |devices| ==>
        devices[i].usn in discovery.devices && discovery.devices[devices[i].usn] == devices[i]
      ensures forall u :: u in discovery.devices ==> discovery.devices[u] in devices
    {
      devices := discovery.GetDevices();
      status := StatusOK;
    }

    /** `SetDefaultDeviceHandler`: a decoded request replaces the default device; a malformed one is a 400. */
    method SetDefaultDevice(req: Decoded<string>) returns (resp: HttpResponse)
      modifies this
      ensures req.Malformed? ==> resp == HttpError(req.message, StatusBadRequest) && defaultID == old(defaultID)
      ensures req.Decoded? ==> defaultID == req.value && resp == HttpResponse(StatusOK, "Default device set to " + req.value)
    {
      match req
      case Malformed(msg) =>
        resp := HttpError(msg, StatusBadRequest);
      case Decoded(usn) =>
        defaultID := usn;
        resp := HttpResponse(StatusOK, "Default device set to " + usn);
    }

    /** Target selection of `CastHandler`: explicit USN, then the default device, then the first listed match. */
    method ResolveTarget(requested: string) returns (target: string)
      requires discovery.Valid()
      ensures TargetFor(requested, defaultID, defaultPattern, discovery.devices, target)
    {
      target := requested;
      if target == "" {
        target := defaultID;
      }
      if target == "" && defaultPattern != "" {
        var devices := discovery.GetDevices();
        var i := 0;
        while i < |devices|
          invariant 0 <= i <= |devices|
          invariant target == ""
          invariant forall j :: 0 <= j < i ==> !Matches(devices[j], defaultPattern)
        {
          if Matches(devices[i], defaultPattern) {
            target := devices[i].usn;
            break;
          }
          i := i + 1;
        }
        if i == |devices| {
          forall u | u in discovery.devices
            ensures !Matches(discovery.devices[u], defaultPattern)
          {
            var j :| 0 <= j < |devices| && devices[j] == discovery.devices[u];
          }
        }
      }
    }

    /** `CastHandler`: decode, choose the target, and dispatch; a malformed request is a 400 that sends nothing. */
    method Cast(req: Decoded<CastRequest>, transport: Transport) returns (resp: HttpResponse)
      requires discovery.Valid()
      modifies transport
      ensures req.Malformed? ==>
        && resp == HttpError(req.message, StatusBadRequest)
        && transport.sent == old(transport.sent) && transport.replies == old(transport.replies)
      ensures req.Decoded? ==>
        exists target :: (
          && TargetFor(req.value.usn, defaultID, defaultPattern, discovery.devices, target)
          && var o := Dispatch(target, discovery.devices, req.value.url, old(transport.replies));
          && resp == o.response
          && transport.sent == old(transport.sent) + o.posts
          && transport.replies == Drop(old(transport.replies), |o.posts|))
    {
      if req.Malformed? {
        return HttpError(req.message, StatusBadRequest);
      }
      var target := ResolveTarget(req.value.usn);
      if target == "" {
        return HttpError(NoTargetMessage, StatusBadRequest);
      }
      var device := discovery.GetDevice(target);
      if device.None? {
        return HttpError(NotFoundMessage, StatusNotFound);
      }
      var err := Play(transport, device.value.controlURL, req.value.url, "");
      if err.Some? {
        resp := HttpError("Failed to cast: " + PlayErrorText(err.value), StatusInternalServerError);
      } else {
        resp := HttpResponse(StatusOK, "Casting to " + device.value.friendlyName);
      }
      assert TargetFor(req.value.usn, defaultID, defaultPattern, discovery.devices, target);
    }
  }
}
