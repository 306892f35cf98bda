/** The shapes shared by the player modules (`src/lib/players/types.ts`). */
module PlayerTypes {
  import opened Nullable

  /** A snapshot of the embedded player: resource id, title, duration and
      position in whole seconds (duration 0 when unknown). */
  datatype VideoInfo = VideoInfo(
    id: Option<string>,
    title: Option<string>,
    duration: int,
    currentTime: int)

  /** The snapshot reported when the player cannot be asked. */
  function DefaultInfo(id: Option<string>): VideoInfo {
    VideoInfo(id, None, 0, 0)
  }

  /** The calls an adapter makes on the third-party player object. */
  datatype PlayerCall =
    | CreatePlayer(videoId: string)
    | LoadVideoById(videoId: string)
    | PlayVideo
    | PauseVideo
    | StopVideo
    | SeekVideo(seconds: nat)
    | DestroyVideo
}
