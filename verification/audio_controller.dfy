/**
 * The playback engine seen from the view model: the commands it receives.
 * The engine itself (media player, system volume) is outside the model.
 */
module AudioController {
  import TrackData

  datatype Command =
    | LoadTrack(track: TrackData.Track)
    | Play
    | Pause
    | IncreaseVolume
    | DecreaseVolume
    | AdjustPitch(tenths: int)
}
