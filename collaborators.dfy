/**
 * The objects the glue drives but does not own: the player adapter, the
 * host that shows and hides the controls overlay, the navigation controller
 * and the adapter that holds the primary-actions row.  Each keeps only the
 * state the glue reads or changes.
 */
module Collaborators {
  import opened TransportModel

  /** The player adapter: play state, position and duration in milliseconds. */
  class PlayerAdapter {
    var isPlaying: bool
    var currentPosition: int
    var duration: int

    constructor (playing: bool, position: int, length: int)
      ensures isPlaying == playing && currentPosition == position && duration == length
    {
      isPlaying, currentPosition, duration := playing, position, length;
    }

    method Play()
      modifies this
      ensures isPlaying
      ensures currentPosition == old(currentPosition) && duration == old(duration)
    {
      isPlaying := true;
    }

    method Pause()
      modifies this
      ensures !isPlaying
      ensures currentPosition == old(currentPosition) && duration == old(duration)
    {
      isPlaying := false;
    }

    method SeekTo(positionMs: int)
      modifies this
      ensures currentPosition == positionMs
      ensures isPlaying == old(isPlaying) && duration == old(duration)
    {
      currentPosition := positionMs;
    }
  }

  /** The glue host: whether the transport controls overlay is on screen. */
  class PlaybackGlueHost {
    var isControlsOverlayVisible: bool

    constructor (visible: bool)
      ensures isControlsOverlayVisible == visible
    {
      isControlsOverlayVisible := visible;
    }

    method ShowControlsOverlay(animated: bool)
      modifies this
      ensures isControlsOverlayVisible
    {
      isControlsOverlayVisible := true;
    }

    method HideControlsOverlay(animated: bool)
      modifies this
      ensures !isControlsOverlayVisible
    {
      isControlsOverlayVisible := false;
    }
  }

  /** The navigation controller, reduced to the number of screens popped. */
  class NavController {
    var popCount: nat

    constructor ()
      ensures popCount == 0
    {
      popCount := 0;
    }

    method PopBackStack()
      modifies this
      ensures popCount == old(popCount) + 1
    {
      popCount := popCount + 1;
    }
  }

  /** The row adapter the primary actions are added to, in order. */
  class ArrayObjectAdapter {
    var items: seq<Action>

    constructor ()
      ensures items == []
    {
      items := [];
    }

    method Add(item: Action)
      modifies this
      ensures items == old(items) + [item]
    {
      items := items + [item];
    }
  }
}
