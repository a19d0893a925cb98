# Transport-control glue of the sakura-animation TV player

This project models `ProgressTransportControlGlue`, the class that turns
remote-control keys and on-screen action clicks into player and overlay
commands in the app's playback screen. It covers:

- coarse 30-second skips, clamped at the start and at the end of the content;
- play/pause on the centre key while the controls overlay is hidden;
- the back key: an immediate exit when paused at the end, "press again to
  exit" while playing, and a swallowed press otherwise;
- the info key, which toggles the overlay;
- the layout of the primary-actions row and the dispatch of action clicks;
- the progress callback.

The project has four modules:

- `TransportModel` (`transport_model.dfy`) is the specification. `Glue` is a
  snapshot of everything the glue reads or drives:
  - the player adapter: play state, position and duration in ms;
  - the host's overlay visibility;
  - the number of screens popped from the back stack;
  - the glue's own `backPressed` flag;
  - the number of launched "clear the flag after 2000 ms" tasks that have
    not fired yet;
  - counters of notices shown, calls handed to the base glue and progress
    callbacks made.

  There is one function per entry point. `Step` and `Run` replay a sequence
  of events.
- `Collaborators` (`collaborators.dfy`) holds the objects the glue drives as
  small classes: the player adapter, the glue host, the navigation
  controller and the row adapter.
- `TransportGlue` (`transport_glue.dfy`) holds the class
  `ProgressTransportControlGlue`. Its methods follow the source's statements
  one by one: pause, then show the overlay; hide the overlay, then set the
  flag. Each method is proved to move the whole snapshot exactly as its
  `TransportModel` function says. `Valid()` is the reset invariant.
- `TransportProperties` (`transport_properties.dfy`) proves what the glue
  promises about those functions: single events, the double-back protocol
  across several events, and invariants over every run.

Key codes are Android's: `KEYCODE_BACK` = 4, `KEYCODE_DPAD_CENTER` = 23 and
`KEYCODE_INFO` = 165. The skip step is `THIRTY_SECONDS` = 30 000 ms. The
"finished" threshold is a strict `duration - position < 1000`.

Inputs that the code cannot see are parameters of the model:

- `baseHandled` is the answer of the base glue's `onKey` for keys the glue
  does not intercept.
- The firing of a launched reset task is an explicit event,
  `ResetTimerFires`.
- The toast is only counted.
- `popBackStack()` is only counted.

## Model

| member | source | states |
|---|---|---|
| TransportModel.CoerceAtLeast | app/src/main/java/com/jing/sakura/player/ProgressTransportControlGlue.kt:104 | the result is the larger of the value and the lower bound: at least both, and equal to one of them |
| TransportModel.CoerceAtMost | app/src/main/java/com/jing/sakura/player/ProgressTransportControlGlue.kt:111 | the result is the smaller of the value and the upper bound: at most both, and equal to one of them |
| TransportModel.SkipBackward | app/src/main/java/com/jing/sakura/player/ProgressTransportControlGlue.kt:101-106 | the new position is `max(position - 30000, 0)`, so never negative; nothing but the position changes |
| TransportModel.SkipForward | app/src/main/java/com/jing/sakura/player/ProgressTransportControlGlue.kt:108-113 | the new position is `min(position + 30000, duration)`, so never past the duration; nothing but the position changes |
| TransportModel.OnActionClicked | app/src/main/java/com/jing/sakura/player/ProgressTransportControlGlue.kt:92-99 | an action click never changes play state, duration, overlay, back stack, flag or pending resets |
| TransportModel.OnBack | app/src/main/java/com/jing/sakura/player/ProgressTransportControlGlue.kt:126-146 | the back key never changes play state, position or duration; it pops at most one screen and calls neither the base glue nor the progress callback |
| TransportModel.OnKey | app/src/main/java/com/jing/sakura/player/ProgressTransportControlGlue.kt:115-159 | a key never seeks; a key is delegated to the base glue exactly when it is not back, not info, and not centre with the overlay hidden |
| TransportModel.ResetFires | app/src/main/java/com/jing/sakura/player/ProgressTransportControlGlue.kt:140-143 | a firing reset task clears the flag, leaves one fewer task pending and changes nothing else |
| TransportModel.OnUpdateProgress | app/src/main/java/com/jing/sakura/player/ProgressTransportControlGlue.kt:87-90 | a progress update invokes the callback once and changes nothing else |
| TransportModel.PrimaryActions | app/src/main/java/com/jing/sakura/player/ProgressTransportControlGlue.kt:76-85 | the row keeps what it held and grows by exactly three actions |
| TransportModel.Run | app/src/main/java/com/jing/sakura/player/ProgressTransportControlGlue.kt:87-159 | along any run of events the duration is unchanged, and the pop count and callback count never decrease |
| TransportGlue.ProgressTransportControlGlue.constructor | app/src/main/java/com/jing/sakura/player/ProgressTransportControlGlue.kt:59-67 | the glue starts with the flag clear and no reset pending (so `Valid()`), driving the player, host and navigation controller it is given |
| TransportGlue.ProgressTransportControlGlue.OnCreatePrimaryActions | app/src/main/java/com/jing/sakura/player/ProgressTransportControlGlue.kt:76-85 | the row adapter ends as `PrimaryActions` of what it held |
| TransportGlue.ProgressTransportControlGlue.OnUpdateProgress | app/src/main/java/com/jing/sakura/player/ProgressTransportControlGlue.kt:87-90 | the state moves exactly as `TransportModel.OnUpdateProgress` says; `Valid()` is kept |
| TransportGlue.ProgressTransportControlGlue.OnActionClicked | app/src/main/java/com/jing/sakura/player/ProgressTransportControlGlue.kt:92-99 | the state moves exactly as `TransportModel.OnActionClicked` says; `Valid()` is kept |
| TransportGlue.ProgressTransportControlGlue.SkipBackward | app/src/main/java/com/jing/sakura/player/ProgressTransportControlGlue.kt:101-106 | the player seeks exactly as `TransportModel.SkipBackward` says and nothing else changes |
| TransportGlue.ProgressTransportControlGlue.SkipForward | app/src/main/java/com/jing/sakura/player/ProgressTransportControlGlue.kt:108-113 | the player seeks exactly as `TransportModel.SkipForward` says and nothing else changes |
| TransportGlue.ProgressTransportControlGlue.OnKey | app/src/main/java/com/jing/sakura/player/ProgressTransportControlGlue.kt:115-159 | the player, overlay, back stack and glue fields move exactly as `TransportModel.OnKey` says; the result is true unless the key was delegated, and then it is the base glue's answer; `Valid()` is kept |
| TransportGlue.ProgressTransportControlGlue.ResetTimerFires | app/src/main/java/com/jing/sakura/player/ProgressTransportControlGlue.kt:140-143 | the pending reset task clears the flag exactly as `TransportModel.ResetFires` says; `Valid()` is kept |
| TransportProperties.SkipTargetsStayInRange | app/src/main/java/com/jing/sakura/player/ProgressTransportControlGlue.kt:102-113 | with `0 <= position <= duration`, both skip targets lie in `[0, duration]`; forward does not go back and backward does not go forward |
| TransportProperties.SkipMovesFullStepAwayFromBounds | app/src/main/java/com/jing/sakura/player/ProgressTransportControlGlue.kt:102-113 | each skip clamps on one side only: away from its bound it moves exactly 30 000 ms; past the end, forward lands on the duration |
| TransportProperties.ActionDispatch | app/src/main/java/com/jing/sakura/player/ProgressTransportControlGlue.kt:92-99 | skip backward seeks to `max(p - 30000, 0)`; skip forward seeks to `min(p + 30000, d)`; the base glue is called if and only if the action is neither skip, and then nothing else changes |
| TransportProperties.PrimaryActionsOrder | app/src/main/java/com/jing/sakura/player/ProgressTransportControlGlue.kt:76-85 | after the existing actions come play/pause, skip backward and skip forward, in that order, and each skip action occurs exactly once |
| TransportProperties.CenterWithOverlayHidden | app/src/main/java/com/jing/sakura/player/ProgressTransportControlGlue.kt:117-125 | with the overlay hidden, centre is handled and flips play state; the overlay is shown if it paused and left hidden if it resumed; flag, pending resets, back stack and base calls are unchanged |
| TransportProperties.CenterWithOverlayVisibleDelegates | app/src/main/java/com/jing/sakura/player/ProgressTransportControlGlue.kt:115-158 | with the overlay visible, centre goes to the base glue and the tracked state is otherwise unchanged |
| TransportProperties.BackNearEndExits | app/src/main/java/com/jing/sakura/player/ProgressTransportControlGlue.kt:126-145 | paused with `duration - position < 1000`: back pops exactly one screen and changes nothing else, whatever the overlay and flag |
| TransportProperties.BackWhilePausedElsewhereIsSwallowed | app/src/main/java/com/jing/sakura/player/ProgressTransportControlGlue.kt:126-145 | paused with `duration - position >= 1000` (the boundary included): back is handled and changes nothing |
| TransportProperties.BackSecondPressExits | app/src/main/java/com/jing/sakura/player/ProgressTransportControlGlue.kt:130-134 | playing with the flag set: back pops one screen; flag, overlay and pending reset are untouched |
| TransportProperties.BackFirstPressArmsReset | app/src/main/java/com/jing/sakura/player/ProgressTransportControlGlue.kt:135-145 | playing with the flag clear: the overlay ends hidden, one notice is shown, the flag is set and exactly one more reset is pending; no pop, still playing |
| TransportProperties.BackAlwaysHandled | app/src/main/java/com/jing/sakura/player/ProgressTransportControlGlue.kt:126-146 | back is always reported handled and never reaches the base glue |
| TransportProperties.DoubleBackWhilePlayingExits | app/src/main/java/com/jing/sakura/player/ProgressTransportControlGlue.kt:130-143 | two back presses while playing, with no reset in between: the first pops nothing, the second pops exactly one screen |
| TransportProperties.ResetRestoresFirstPress | app/src/main/java/com/jing/sakura/player/ProgressTransportControlGlue.kt:131-143 | first back press, then the reset fires: the flag is clear again, and the next back press is again a first press (second notice, flag set, no pop), the invariant holding throughout |
| TransportProperties.InfoTogglesOverlay | app/src/main/java/com/jing/sakura/player/ProgressTransportControlGlue.kt:148-156 | info is handled, flips the overlay and changes nothing else; two presses restore the state |
| TransportProperties.ProgressTickOnlyCallsBack | app/src/main/java/com/jing/sakura/player/ProgressTransportControlGlue.kt:87-90 | a progress tick runs the callback once and changes nothing else |
| TransportProperties.StepPreservesResetInvariant | app/src/main/java/com/jing/sakura/player/ProgressTransportControlGlue.kt:131-143 | every event keeps "the flag is set exactly when one reset is pending" |
| TransportProperties.FlagRisesOnlyOnFirstBackPress | app/src/main/java/com/jing/sakura/player/ProgressTransportControlGlue.kt:131-139 | the flag goes from clear to set only on a back press while playing |
| TransportProperties.FlagFallsOnlyOnReset | app/src/main/java/com/jing/sakura/player/ProgressTransportControlGlue.kt:140-143 | the flag goes from set to clear only when a pending reset fires |
| TransportProperties.PopsOnlyOnBack | app/src/main/java/com/jing/sakura/player/ProgressTransportControlGlue.kt:128-133 | only the back key pops screens, one per press |
| TransportProperties.RunPreservesResetInvariant | app/src/main/java/com/jing/sakura/player/ProgressTransportControlGlue.kt:131-143 | along any run from a consistent state, the flag is set exactly when a reset is pending, and at most one reset is ever pending |
| TransportProperties.RunKeepsPositionInRange | app/src/main/java/com/jing/sakura/player/ProgressTransportControlGlue.kt:102-113 | along any run that starts with `0 <= position <= duration`, the position stays in that range |
| TransportProperties.RunWithoutBackNeverPops | app/src/main/java/com/jing/sakura/player/ProgressTransportControlGlue.kt:126-134 | a run of events with no back press pops no screen |

## Left out

- Scheduling of the reset task: `lifeCycleScope.launch { delay(2000L) … }` becomes a pending-task counter plus an explicit `ResetTimerFires` event. Real time, the 2000 ms length and cancellation on teardown are not modelled.
- The base class `PlaybackTransportControlGlue` is not part of this model. What `super.onKey`, `super.onActionClicked` and `super.onUpdateProgress` do is outside the model. The model records each call to `super.onKey` or `super.onActionClicked` as one base call, with no effect on the tracked state. The play/pause action's toggling lives there too.
- `super.onCreatePrimaryActions` is modelled only as appending the play/pause action, as the comment at line 77 says it does.
- The toast is counted, not displayed. Its text and duration are not modelled.
- `NavController.popBackStack()` only increments a pop counter. Its Boolean result is ignored in the source as well.
- The `View` and `KeyEvent` arguments of `onKey` are never read by the glue's own logic, so they are omitted. Down and up events of a key are not told apart.
- Playback progressing on its own, buffering and the end of media are not modelled. The player adapter changes only when the glue commands it.
- `Long` arithmetic is modelled as unbounded integers. `position + 30000` could wrap only within 30 000 ms of the largest `Long`, and the model does not capture that.
- The test-visible `skipForwardAction` and `skipBackwardAction` properties are actions identified by their kind. The identity comparison in `onActionClicked` becomes a match on that kind.
- `AnimeDetailFragment.kt` (detail-page rendering) and `AnimeData.kt` (a data record without behaviour) are UI and data plumbing and are not part of this model.
