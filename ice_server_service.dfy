/**
 * IceServerService: assembles the ICE server list handed to WebRTC clients
 * from the "IceServers" configuration section, passed in as a value.
 */
module IceServerService {
  import opened Wrappers

  datatype RTCIceServer = RTCIceServer(urls: seq<string>, username: Option<string>, credential: Option<string>)

  /**
   * "IceServers:TurnServer": Enabled (false when absent), the URL list (null
   * when absent) and the optional username and credential.
   */
  datatype TurnSettings = TurnSettings(enabled: bool, urls: Option<seq<string>>, username: Option<string>, credential: Option<string>)

  /** "IceServers": the STUN URL list (null when absent) and the TURN settings. */
  datatype IceSettings = IceSettings(stunServers: Option<seq<string>>, turn: TurnSettings)

  /** The configured STUN URLs, none when the list is absent. */
  function StunUrls(settings: IceSettings): seq<string> {
    settings.stunServers.GetOr([])
  }

  /** Whether a TURN entry is added: TURN is enabled and its URL list is present and non-empty. */
  predicate TurnAdded(settings: IceSettings) {
    settings.turn.enabled && settings.turn.urls.Some? && |settings.turn.urls.value| > 0
  }

  /**
   * GetIceServers: one entry per STUN URL, in order, each holding just that
   * URL and no credentials; then, only when TURN is enabled with URLs, one
   * last entry with all the TURN URLs and the configured username and credential.
   */
  method GetIceServers(settings: IceSettings) returns (iceServers: seq<RTCIceServer>)
    ensures |iceServers| == |StunUrls(settings)| + (if TurnAdded(settings) then 1 else 0)
    ensures forall i | 0 <= i < |StunUrls(settings)| ::
              iceServers[i] == RTCIceServer([StunUrls(settings)[i]], None, None)
    ensures TurnAdded(settings) ==>
              iceServers[|iceServers| - 1] == RTCIceServer(settings.turn.urls.value, settings.turn.username, settings.turn.credential)
  {
    iceServers := [];
    var stun := StunUrls(settings);
    var i := 0;
    while i < |stun|
      invariant 0 <= i <= |stun|
      invariant |iceServers| == i
      invariant forall j | 0 <= j < i :: iceServers[j] == RTCIceServer([stun[j]], None, None)
    {
      iceServers := iceServers + [RTCIceServer([stun[i]], None, None)];
      i := i + 1;
    }
    if settings.turn.enabled {
      var turnUrls := settings.turn.urls;
      if turnUrls.Some? && |turnUrls.value| > 0 {
        iceServers := iceServers + [RTCIceServer(turnUrls.value, settings.turn.username, settings.turn.credential)];
      }
    }
  }
}
