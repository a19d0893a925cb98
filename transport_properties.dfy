/**
 * What the glue promises, proved about the TransportModel functions that
 * its methods are verified against: the clamped skips, the action row and
 * its dispatch, each branch of the key policy, the double-back-to-exit
 * protocol across several events, and the invariants every run keeps.
 */
module TransportProperties {
  import opened TransportModel

  // ---- Coarse seek -------------------------------------------------------

  /** Within the content both skips land within the content, on the right side of the position. */
  lemma SkipTargetsStayInRange(g: Glue)
    requires PositionInRange(g)
    ensures PositionInRange(SkipForward(g)) && SkipForward(g).position >= g.position
    ensures PositionInRange(SkipBackward(g)) && SkipBackward(g).position <= g.position
  {
  }

  /** Each skip clamps on one side only: far from the bounds it moves exactly 30 s. */
  lemma SkipMovesFullStepAwayFromBounds(g: Glue)
    ensures g.position + THIRTY_SECONDS <= g.duration ==>
      SkipForward(g).position == g.position + THIRTY_SECONDS
    ensures g.position >= THIRTY_SECONDS ==>
      SkipBackward(g).position == g.position - THIRTY_SECONDS
    ensures g.position > g.duration ==> SkipForward(g).position == g.duration
  {
  }

  // ---- Actions ------------------------------------------------------------

  /** Only the two skip actions move the player; every other action is handed to the base glue. */
  lemma ActionDispatch(g: Glue, action: Action)
    ensures action == SkipBackwardAction ==>
      OnActionClicked(g, action).position == CoerceAtLeast(g.position - THIRTY_SECONDS, 0)
    ensures action == SkipForwardAction ==>
      OnActionClicked(g, action).position == CoerceAtMost(g.position + THIRTY_SECONDS, g.duration)
    ensures OnActionClicked(g, action).baseCalls != g.baseCalls <==>
      action != SkipBackwardAction && action != SkipForwardAction
    ensures action != SkipBackwardAction && action != SkipForwardAction ==>
      OnActionClicked(g, action) == g.(baseCalls := g.baseCalls + 1)
  {
  }

  /**
   * On a row that holds no skip action yet, the new row ends play/pause,
   * skip backward, skip forward, each skip action occurring exactly once.
   */
  lemma PrimaryActionsOrder(existing: seq<Action>)
    requires forall i :: 0 <= i < |existing| ==>
      existing[i] != SkipBackwardAction && existing[i] != SkipForwardAction
    ensures var r := PrimaryActions(existing);
      r[|existing|] == PlayPauseAction &&
      r[|existing| + 1] == SkipBackwardAction &&
      r[|existing| + 2] == SkipForwardAction
    ensures var r := PrimaryActions(existing);
      forall i :: 0 <= i < |r| && r[i] == SkipBackwardAction ==> i == |existing| + 1
    ensures var r := PrimaryActions(existing);
      forall i :: 0 <= i < |r| && r[i] == SkipForwardAction ==> i == |existing| + 2
  {
  }

  // ---- Centre key ---------------------------------------------------------

  /** With the overlay hidden, centre toggles play/pause; it pauses onto a visible overlay. */
  lemma CenterWithOverlayHidden(g: Glue)
    requires !g.overlayVisible
    ensures var r := OnKey(g, KEYCODE_DPAD_CENTER);
      r.Handled? && r.next.isPlaying == !g.isPlaying &&
      r.next.overlayVisible == g.isPlaying &&
      r.next.backPressed == g.backPressed && r.next.pendingResets == g.pendingResets &&
      r.next.popCount == g.popCount && r.next.baseCalls == g.baseCalls
  {
  }

  /** With the overlay visible, centre is not intercepted: the base glue handles it. */
  lemma CenterWithOverlayVisibleDelegates(g: Glue)
    requires g.overlayVisible
    ensures OnKey(g, KEYCODE_DPAD_CENTER) == Delegated(g.(baseCalls := g.baseCalls + 1))
  {
  }

  // ---- Back key -----------------------------------------------------------

  /** Paused within 1000 ms of the end: back pops the screen at once, whatever the overlay or flag. */
  lemma BackNearEndExits(g: Glue)
    requires !g.isPlaying && g.duration - g.position < END_OF_CONTENT_MS
    ensures OnKey(g, KEYCODE_BACK) == Handled(g.(popCount := g.popCount + 1))
  {
  }

  /** Paused elsewhere (the threshold is strict, so exactly 1000 ms from the end too): back is swallowed. */
  lemma BackWhilePausedElsewhereIsSwallowed(g: Glue)
    requires !g.isPlaying && g.duration - g.position >= END_OF_CONTENT_MS
    ensures OnKey(g, KEYCODE_BACK) == Handled(g)
  {
  }

  /** Playing with the flag set: back pops; flag, overlay and pending reset are left as they were. */
  lemma BackSecondPressExits(g: Glue)
    requires g.isPlaying && g.backPressed
    ensures OnKey(g, KEYCODE_BACK) == Handled(g.(popCount := g.popCount + 1))
  {
  }

  /** Playing with the flag clear: the overlay hides, a notice shows, the flag is set and one reset is launched. */
  lemma BackFirstPressArmsReset(g: Glue)
    requires g.isPlaying && !g.backPressed
    ensures var r := OnKey(g, KEYCODE_BACK);
      r.Handled? && !r.next.overlayVisible && r.next.backPressed &&
      r.next.pendingResets == g.pendingResets + 1 &&
      r.next.toastsShown == g.toastsShown + 1 &&
      r.next.popCount == g.popCount && r.next.isPlaying
  {
  }

  /** Whatever the state, the glue reports back as handled and never hands it to the base glue. */
  lemma BackAlwaysHandled(g: Glue)
    ensures OnKey(g, KEYCODE_BACK).Handled?
    ensures OnKey(g, KEYCODE_BACK).next.baseCalls == g.baseCalls
  {
  }

  /** Two back presses while playing, with no reset in between, leave the screen. */
  lemma DoubleBackWhilePlayingExits(g: Glue)
    requires g.isPlaying && !g.backPressed
    ensures var once := OnKey(g, KEYCODE_BACK).next;
      var twice := OnKey(once, KEYCODE_BACK).next;
      once.popCount == g.popCount && twice.popCount == g.popCount + 1
  {
  }

  /**
   * A first back press, then the reset firing: the next back press is again
   * a first press (a second notice, no pop).
   */
  lemma ResetRestoresFirstPress(g: Glue)
    requires g.isPlaying && !g.backPressed && ResetInvariant(g)
    ensures var armed := OnKey(g, KEYCODE_BACK).next;
      armed.pendingResets > 0 &&
      var cleared := ResetFires(armed);
      !cleared.backPressed && ResetInvariant(cleared) &&
      var again := OnKey(cleared, KEYCODE_BACK).next;
      again.popCount == g.popCount && again.backPressed &&
      again.toastsShown == g.toastsShown + 2 && ResetInvariant(again)
  {
  }

  // ---- Info key -----------------------------------------------------------

  /** Info flips the overlay once and changes nothing else; two presses restore the state. */
  lemma InfoTogglesOverlay(g: Glue)
    ensures var r := OnKey(g, KEYCODE_INFO);
      r.Handled? && r.next == g.(overlayVisible := !g.overlayVisible)
    ensures OnKey(OnKey(g, KEYCODE_INFO).next, KEYCODE_INFO).next == g
  {
  }

  // ---- Progress ticks -----------------------------------------------------

  /** A progress tick leaves every tracked state alone except the callback count. */
  lemma ProgressTickOnlyCallsBack(g: Glue)
    ensures Step(g, ProgressTick).progressCallbacks == g.progressCallbacks + 1
    ensures Step(g, ProgressTick).(progressCallbacks := g.progressCallbacks) == g
  {
  }

  // ---- The exit-confirmation flag -----------------------------------------

  /** Every event keeps "flag set exactly when one reset is pending". */
  lemma StepPreservesResetInvariant(g: Glue, e: Event)
    requires ResetInvariant(g)
    ensures ResetInvariant(Step(g, e))
  {
  }

  /** The flag is only ever raised by a back press while playing. */
  lemma FlagRisesOnlyOnFirstBackPress(g: Glue, e: Event)
    requires !g.backPressed && Step(g, e).backPressed
    ensures e == KeyPress(KEYCODE_BACK) && g.isPlaying
  {
  }

  /** The flag is only ever lowered by the reset task. */
  lemma FlagFallsOnlyOnReset(g: Glue, e: Event)
    requires g.backPressed && !Step(g, e).backPressed
    ensures e == ResetTimerFires && g.pendingResets > 0
  {
  }

  /** Screens are popped only by the back key, one at a time. */
  lemma PopsOnlyOnBack(g: Glue, e: Event)
    requires Step(g, e).popCount != g.popCount
    ensures e == KeyPress(KEYCODE_BACK)
    ensures Step(g, e).popCount == g.popCount + 1
  {
  }

  /** At most one reset is ever pending along any run that starts in a consistent state. */
  lemma {:induction false} RunPreservesResetInvariant(g: Glue, events: seq<Event>)
    requires ResetInvariant(g)
    ensures ResetInvariant(Run(g, events))
    ensures Run(g, events).pendingResets <= 1
    decreases |events|
  {
    if events != [] {
      StepPreservesResetInvariant(g, events[0]);
      RunPreservesResetInvariant(Step(g, events[0]), events[1..]);
    }
  }

  /** The player position stays within the content along any run that starts there. */
  lemma {:induction false} RunKeepsPositionInRange(g: Glue, events: seq<Event>)
    requires PositionInRange(g)
    ensures PositionInRange(Run(g, events))
    decreases |events|
  {
    if events != [] {
      SkipTargetsStayInRange(g);
      RunKeepsPositionInRange(Step(g, events[0]), events[1..]);
    }
  }

  /** A run with no back press pops no screen. */
  lemma {:induction false} RunWithoutBackNeverPops(g: Glue, events: seq<Event>)
    requires forall i :: 0 <= i < |events| ==> events[i] != KeyPress(KEYCODE_BACK)
    ensures Run(g, events).popCount == g.popCount
    decreases |events|
  {
    if events != [] {
      if Step(g, events[0]).popCount != g.popCount {
        PopsOnlyOnBack(g, events[0]);
      }
      RunWithoutBackNeverPops(Step(g, events[0]), events[1..]);
    }
  }
}
