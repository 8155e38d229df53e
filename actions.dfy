/** The closed set of audio control intents that a binding can name, and the
    executor's view of them. */
module Actions {

  /** One discrete control intent. Each variant is a pure tag with no payload. */
  datatype AudioControlAction =
    | TrackMute | TrackSolo | TrackArm
    | TrackVolumeInc | TrackVolumeDec
    | TrackPrevious | TrackNext
    | PannerAzimuthLeft | PannerAzimuthRight
    | PannerElevationInc | PannerElevationDec
    | PannerDistanceInc | PannerDistanceDec
    | PannerSpreadInc | PannerSpreadDec
    | TransportPlay | TransportStop
    | TransportRecord | TransportUndo | TransportRedo

  /** The enumeration in declaration order, without repetitions. */
  function AllActions(): (all: seq<AudioControlAction>)
    ensures forall i, j :: 0 <= i < j < |all| ==> all[i] != all[j]
    ensures |all| == 20
  {
    [ TrackMute, TrackSolo, TrackArm,
      TrackVolumeInc, TrackVolumeDec,
      TrackPrevious, TrackNext,
      PannerAzimuthLeft, PannerAzimuthRight,
      PannerElevationInc, PannerElevationDec,
      PannerDistanceInc, PannerDistanceDec,
      PannerSpreadInc, PannerSpreadDec,
      TransportPlay, TransportStop,
      TransportRecord, TransportUndo, TransportRedo ]
  }

  /** The enumeration is complete: every action appears in it, so the action
      set is closed and has exactly twenty members. */
  lemma AllActionsComplete(a: AudioControlAction)
    ensures a in AllActions()
  {
    match a
    case TrackMute =>
    case TrackSolo =>
    case TrackArm =>
    case TrackVolumeInc =>
    case TrackVolumeDec =>
    case TrackPrevious =>
    case TrackNext =>
    case PannerAzimuthLeft =>
    case PannerAzimuthRight =>
    case PannerElevationInc =>
    case PannerElevationDec =>
    case PannerDistanceInc =>
    case PannerDistanceDec =>
    case PannerSpreadInc =>
    case PannerSpreadDec =>
    case TransportPlay =>
    case TransportStop =>
    case TransportRecord =>
    case TransportUndo =>
    case TransportRedo =>
  }
}
