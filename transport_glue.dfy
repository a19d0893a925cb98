/**
 * The glue itself: a class over the player adapter, the host and the
 * navigation controller, with one method per entry point.  Each method is
 * written step by step as the glue does its work and is proved to move the
 * whole snapshot exactly as the matching TransportModel function says.
 */
module TransportGlue {
  import opened TransportModel
  import opened Collaborators

  class ProgressTransportControlGlue {
    const player: PlayerAdapter
    const host: PlaybackGlueHost
    const navController: NavController

    /** Set by a first back press while playing, cleared by the reset task. */
    var backPressed: bool
    /** Launched reset tasks that have not fired yet. */
    var pendingResets: nat
    /** "Press again to exit" notices shown. */
    var toastsShown: nat
    /** Calls handed on to the base glue (super.onKey, super.onActionClicked). */
    var baseCalls: nat
    /** Invocations of the host's progress callback. */
    var progressCallbacks: nat

    /** The abstract value of the glue together with what it drives. */
    function State(): Glue
      reads this, player, host, navController
    {
      Glue(player.isPlaying, player.currentPosition, player.duration,
           host.isControlsOverlayVisible, navController.popCount,
           backPressed, pendingResets, toastsShown, baseCalls, progressCallbacks)
    }

    ghost predicate Valid()
      reads this, player, host, navController
    {
      ResetInvariant(State())
    }

    constructor (player: PlayerAdapter, host: PlaybackGlueHost, navController: NavController)
      ensures this.player == player && this.host == host && this.navController == navController
      ensures Valid()
      ensures !backPressed && pendingResets == 0
      ensures toastsShown == 0 && baseCalls == 0 && progressCallbacks == 0
    {
      this.player := player;
      this.host := host;
      this.navController := navController;
      backPressed := false;
      pendingResets := 0;
      toastsShown := 0;
      baseCalls := 0;
      progressCallbacks := 0;
    }

    /** Appends the base play/pause action, then skip backward, then skip forward. */
    method OnCreatePrimaryActions(primaryActionsAdapter: ArrayObjectAdapter)
      modifies primaryActionsAdapter
      ensures primaryActionsAdapter.items == PrimaryActions(old(primaryActionsAdapter.items))
    {
      // The base glue contributes the play/pause action.
      primaryActionsAdapter.Add(PlayPauseAction);
      primaryActionsAdapter.Add(SkipBackwardAction);
      primaryActionsAdapter.Add(SkipForwardAction);
    }

    method OnUpdateProgress()
      requires Valid()
      modifies this
      ensures Valid()
      ensures State() == TransportModel.OnUpdateProgress(old(State()))
    {
      progressCallbacks := progressCallbacks + 1;
    }

    method OnActionClicked(action: Action)
      requires Valid()
      modifies this, player
      ensures Valid()
      ensures State() == TransportModel.OnActionClicked(old(State()), action)
    {
      match action
      case SkipBackwardAction => SkipBackward();
      case SkipForwardAction => SkipForward();
      case _ => baseCalls := baseCalls + 1;
    }

    method SkipBackward()
      requires Valid()
      modifies player
      ensures Valid()
      ensures State() == TransportModel.SkipBackward(old(State()))
    {
      var newPosition := player.currentPosition - THIRTY_SECONDS;
      newPosition := CoerceAtLeast(newPosition, 0);
      player.SeekTo(newPosition);
    }

    method SkipForward()
      requires Valid()
      modifies player
      ensures Valid()
      ensures State() == TransportModel.SkipForward(old(State()))
    {
      var newPosition := player.currentPosition + THIRTY_SECONDS;
      newPosition := CoerceAtMost(newPosition, player.duration);
      player.SeekTo(newPosition);
    }

    /**
     * Handles a key; `baseHandled` is what the base glue's onKey would
     * answer for a key this glue does not intercept.
     */
    method OnKey(keyCode: int, baseHandled: bool) returns (handled: bool)
      requires Valid()
      modifies this, player, host, navController
      ensures Valid()
      ensures State() == TransportModel.OnKey(old(State()), keyCode).next
      ensures handled == TransportModel.OnKey(old(State()), keyCode).Result(baseHandled)
    {
      if keyCode == KEYCODE_DPAD_CENTER && !host.isControlsOverlayVisible {
        if player.isPlaying {
          player.Pause();
          host.ShowControlsOverlay(true);
        } else {
          player.Play();
        }
        return true;
      }
      if keyCode == KEYCODE_BACK {
        if !player.isPlaying && player.duration - player.currentPosition < END_OF_CONTENT_MS {
          navController.PopBackStack();
        } else if player.isPlaying {
          if backPressed {
            navController.PopBackStack();
            return true;
          }
          if host.isControlsOverlayVisible {
            host.HideControlsOverlay(true);
          }
          toastsShown := toastsShown + 1;
          backPressed := true;
          // Launches the task that clears the flag again after 2000 ms.
          pendingResets := pendingResets + 1;
        }
        return true;
      }
      if keyCode == KEYCODE_INFO {
        if host.isControlsOverlayVisible {
          host.HideControlsOverlay(true);
        } else {
          host.ShowControlsOverlay(true);
        }
        return true;
      }
      baseCalls := baseCalls + 1;
      return baseHandled;
    }

    /** The launched reset task, once its 2000 ms delay is over. */
    method ResetTimerFires()
      requires Valid() && pendingResets > 0
      modifies this
      ensures Valid()
      ensures State() == TransportModel.ResetFires(old(State()))
    {
      backPressed := false;
      pendingResets := pendingResets - 1;
    }
  }
}
