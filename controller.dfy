/**
  `play_with_youtube_controller`: derive the screen id from the receiver's
  name, build the YouTube session, register the controller on the cast and
  request playback, turning any exception on the way into `false`.
  The library calls are not modelled; which of them raises, if any, is an
  input.
 */
module Controller {
  import opened Wrappers
  import opened Ascii
  import opened Devices

  const ScreenPrefix: string := "desktop-"

  /** The receiver app the session names. */
  const ReceiverApp: string := "ytcasts"

  /** `str.replace(' ', '_')`. */
  function ReplaceSpaces(s: string): (r: string)
    ensures |r| == |s|
    ensures forall k :: 0 <= k < |s| ==> r[k] == if s[k] == ' ' then '_' else s[k]
  {
    seq(|s|, k requires 0 <= k < |s| => if s[k] == ' ' then '_' else s[k])
  }

  /** `f"desktop-{name.lower().replace(' ', '_')}"`. */
  function ScreenId(name: string): string {
    ScreenPrefix + ReplaceSpaces(LowerString(name))
  }

  /**
    The screen id is the prefix followed by the name, character for character,
    with each space turned into an underscore and each ASCII capital lowered.
   */
  lemma ScreenIdShape(name: string)
    ensures |ScreenId(name)| == |ScreenPrefix| + |name|
    ensures ScreenId(name)[..|ScreenPrefix|] == ScreenPrefix
    ensures forall k :: 0 <= k < |name| ==>
      ScreenId(name)[|ScreenPrefix| + k] == if name[k] == ' ' then '_' else Lower(name[k])
  {
    var id := ScreenId(name);
    forall k | 0 <= k < |name|
      ensures id[|ScreenPrefix| + k] == if name[k] == ' ' then '_' else Lower(name[k])
    {
      assert id[|ScreenPrefix| + k] == ReplaceSpaces(LowerString(name))[k];
    }
  }

  /** A screen id holds no space and no ASCII capital. */
  lemma ScreenIdNoSpaces(name: string)
    ensures ' ' !in ScreenId(name)
    ensures forall k :: 0 <= k < |ScreenId(name)| ==> !IsUpper(ScreenId(name)[k])
  {
    var id := ScreenId(name);
    ScreenIdShape(name);
    forall k | 0 <= k < |id|
      ensures id[k] != ' ' && !IsUpper(id[k])
    {
      if k < |ScreenPrefix| {
        assert id[k] == id[..|ScreenPrefix|][k];
      } else {
        LowerIsLower(name[k - |ScreenPrefix|]);
      }
    }
  }

  /** Names that differ only in ASCII case give the same screen id. */
  lemma ScreenIdIgnoresCase(name: string)
    ensures ScreenId(LowerString(name)) == ScreenId(name)
  {
    LowerStringIdempotent(name);
  }

  lemma ExampleLowered()
    ensures LowerString("Living Room TV") == "living room tv"
  {
    var lowered := LowerString("Living Room TV");
    assert lowered[0] == 'l' && lowered[7] == 'r' && lowered[12] == 't' && lowered[13] == 'v';
  }

  lemma ExampleScreenId()
    ensures ScreenId("Living Room TV") == "desktop-living_room_tv"
  {
    ExampleLowered();
    assert ReplaceSpaces("living room tv") == "living_room_tv";
  }

  /** The fields written on the YouTube session. */
  datatype Session = Session(screenId: string, app: string, deviceId: Option<string>)

  /** The library calls inside the `try` block, in the order they are made. */
  datatype Stage = CreateSession | CreateController | RegisterHandler | WaitCast | PlayVideo

  const Stages: seq<Stage> := [CreateSession, CreateController, RegisterHandler, WaitCast, PlayVideo]

  /** Case split over the modelled stages, for `PlayWithYoutubeController`. */
  lemma StageCases(raises: Option<Stage>)
    ensures raises == None || raises == Some(CreateSession) || raises == Some(CreateController) ||
            raises == Some(RegisterHandler) || raises == Some(WaitCast) || raises == Some(PlayVideo)
  {
    match raises
    case None =>
    case Some(s) =>
      match s
      case CreateSession =>
      case CreateController =>
      case RegisterHandler =>
      case WaitCast =>
      case PlayVideo =>
  }

  /**
    What one attempt did: the session it built (none if building it raised),
    the id it asked for, the library calls it made (the raising one last) and
    the boolean it returned.
   */
  datatype Attempt = Attempt(session: Option<Session>, videoId: string, calls: seq<Stage>, ok: bool)

  /**
    `play_with_youtube_controller`. `raises` names the library call that
    raises an exception, if one does; the calls after it are never made and
    the attempt returns false instead of propagating the exception.
   */
  method PlayWithYoutubeController(device: Device, videoId: string, raises: Option<Stage>)
    returns (a: Attempt)
    ensures a.ok <==> raises.None?
    ensures a.videoId == videoId
    ensures 0 < |a.calls| && a.calls <= Stages
    ensures a.ok ==> a.calls == Stages
    ensures raises.Some? ==> a.calls[|a.calls| - 1] == raises.value
    ensures raises.Some? ==> raises.value !in a.calls[..|a.calls| - 1]
    ensures a.session.Some? <==> raises != Some(CreateSession)
    ensures a.session.Some? ==>
      a.session.value == Session(ScreenId(device.name), ReceiverApp, device.deviceId)
  {
    var screenId := ScreenId(device.name);
    var calls := [CreateSession];
    if raises == Some(CreateSession) {
      return Attempt(None, videoId, calls, false);
    }
    var session := Session(screenId, ReceiverApp, device.deviceId);
    calls := calls + [CreateController];
    if raises == Some(CreateController) {
      return Attempt(Some(session), videoId, calls, false);
    }
    calls := calls + [RegisterHandler];
    if raises == Some(RegisterHandler) {
      return Attempt(Some(session), videoId, calls, false);
    }
    calls := calls + [WaitCast];
    if raises == Some(WaitCast) {
      return Attempt(Some(session), videoId, calls, false);
    }
    calls := calls + [PlayVideo];
    if raises == Some(PlayVideo) {
      return Attempt(Some(session), videoId, calls, false);
    }
    StageCases(raises);
    return Attempt(Some(session), videoId, calls, true);
  }
}
