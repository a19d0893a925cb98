/**
 * The value-level model of the playback transport-control glue: a snapshot of
 * every piece of state the glue reads or changes (the player adapter, the
 * controls overlay of the host, the navigation back stack and the glue's own
 * exit-confirmation flag), and one function per entry point saying what that
 * entry point does to the snapshot.  The class in TransportGlue is proved to
 * follow these functions; TransportProperties proves what they promise.
 */
module TransportModel {

  /** Coarse seek step of the skip actions, in milliseconds (30 seconds). */
  const THIRTY_SECONDS: int := 30 * 1000

  /** A paused player this close to the end (strictly) counts as finished. */
  const END_OF_CONTENT_MS: int := 1000

  /** Android key codes the glue intercepts. */
  const KEYCODE_BACK: int := 4
  const KEYCODE_DPAD_CENTER: int := 23
  const KEYCODE_INFO: int := 165

  /** The actions of the primary-actions row. */
  datatype Action =
    | PlayPauseAction
    | SkipBackwardAction
    | SkipForwardAction
    | OtherAction(id: int)

  /**
   * Everything the glue observes or drives.  Positions and durations are
   * milliseconds, unbounded here.  `pendingResets` counts the launched
   * "clear backPressed after 2000 ms" tasks that have not fired yet;
   * `toastsShown`, `baseCalls` and `progressCallbacks` count the notices
   * shown, the calls handed to the base glue and the progress callbacks made.
   */
  datatype Glue = Glue(
    isPlaying: bool,
    position: int,
    duration: int,
    overlayVisible: bool,
    popCount: nat,
    backPressed: bool,
    pendingResets: nat,
    toastsShown: nat,
    baseCalls: nat,
    progressCallbacks: nat)

  /** What onKey reports: handled by the glue, or the base glue's own answer. */
  datatype KeyOutcome =
    | Handled(next: Glue)
    | Delegated(next: Glue)
  {
    /** The Boolean onKey returns, given what the base glue would return. */
    function Result(baseHandled: bool): bool {
      if Handled? then true else baseHandled
    }
  }

  /** The entry points of the glue, as events of a run. */
  datatype Event =
    | KeyPress(keyCode: int)
    | ActionClick(action: Action)
    | ResetTimerFires
    | ProgressTick

  /** Kotlin's `coerceAtLeast`: the larger of `x` and `lo`. */
  function CoerceAtLeast(x: int, lo: int): (r: int)
    ensures r >= x && r >= lo
    ensures r == x || r == lo
  {
    if x < lo then lo else x
  }

  /** Kotlin's `coerceAtMost`: the smaller of `x` and `hi`. */
  function CoerceAtMost(x: int, hi: int): (r: int)
    ensures r <= x && r <= hi
    ensures r == x || r == hi
  {
    if x > hi then hi else x
  }

  /** skipBackward: seek 30 s back, never before the start. */
  function SkipBackward(g: Glue): (r: Glue)
    ensures r.position >= 0 && r.position >= g.position - THIRTY_SECONDS
    ensures r.position == g.position - THIRTY_SECONDS || r.position == 0
    ensures r == g.(position := r.position)
  {
    var newPosition := g.position - THIRTY_SECONDS;
    g.(position := CoerceAtLeast(newPosition, 0))
  }

  /** skipForward: seek 30 s ahead, never past the duration. */
  function SkipForward(g: Glue): (r: Glue)
    ensures r.position <= g.duration && r.position <= g.position + THIRTY_SECONDS
    ensures r.position == g.position + THIRTY_SECONDS || r.position == g.duration
    ensures r == g.(position := r.position)
  {
    var newPosition := g.position + THIRTY_SECONDS;
    g.(position := CoerceAtMost(newPosition, g.duration))
  }

  /** onActionClicked: the two skip actions seek, every other action goes to the base glue. */
  function OnActionClicked(g: Glue, action: Action): (r: Glue)
    ensures r.isPlaying == g.isPlaying && r.duration == g.duration
    ensures r.overlayVisible == g.overlayVisible && r.popCount == g.popCount
    ensures r.backPressed == g.backPressed && r.pendingResets == g.pendingResets
  {
    match action
    case SkipBackwardAction => SkipBackward(g)
    case SkipForwardAction => SkipForward(g)
    case _ => g.(baseCalls := g.baseCalls + 1)
  }

  /** The back key, which the glue always reports as handled. */
  function OnBack(g: Glue): (r: Glue)
    ensures r.isPlaying == g.isPlaying && r.position == g.position && r.duration == g.duration
    ensures r.popCount == g.popCount || r.popCount == g.popCount + 1
    ensures r.baseCalls == g.baseCalls && r.progressCallbacks == g.progressCallbacks
  {
    if !g.isPlaying && g.duration - g.position < END_OF_CONTENT_MS then
      g.(popCount := g.popCount + 1)
    else if g.isPlaying then
      if g.backPressed then
        g.(popCount := g.popCount + 1)
      else
        g.(overlayVisible := false,
           toastsShown := g.toastsShown + 1,
           backPressed := true,
           pendingResets := g.pendingResets + 1)
    else
      g
  }

  /** onKey: centre (overlay hidden), back and info are intercepted; anything else is delegated. */
  function OnKey(g: Glue, keyCode: int): (r: KeyOutcome)
    ensures r.next.position == g.position && r.next.duration == g.duration
    ensures r.next.progressCallbacks == g.progressCallbacks
    ensures r.Delegated? <==>
      keyCode != KEYCODE_BACK && keyCode != KEYCODE_INFO &&
      (keyCode != KEYCODE_DPAD_CENTER || g.overlayVisible)
  {
    if keyCode == KEYCODE_DPAD_CENTER && !g.overlayVisible then
      if g.isPlaying then
        Handled(g.(isPlaying := false, overlayVisible := true))
      else
        Handled(g.(isPlaying := true))
    else if keyCode == KEYCODE_BACK then
      Handled(OnBack(g))
    else if keyCode == KEYCODE_INFO then
      Handled(g.(overlayVisible := !g.overlayVisible))
    else
      Delegated(g.(baseCalls := g.baseCalls + 1))
  }

  /** The launched reset task wakes up after its delay and clears the flag. */
  function ResetFires(g: Glue): (r: Glue)
    requires g.pendingResets > 0
    ensures !r.backPressed && r.pendingResets + 1 == g.pendingResets
    ensures r == g.(backPressed := false, pendingResets := r.pendingResets)
  {
    g.(backPressed := false, pendingResets := g.pendingResets - 1)
  }

  /** onUpdateProgress: the host's progress callback runs once. */
  function OnUpdateProgress(g: Glue): (r: Glue)
    ensures r.progressCallbacks == g.progressCallbacks + 1
    ensures r == g.(progressCallbacks := r.progressCallbacks)
  {
    g.(progressCallbacks := g.progressCallbacks + 1)
  }

  /**
   * onCreatePrimaryActions: the base glue's play/pause action, then skip
   * backward, then skip forward, after whatever the row already held.
   */
  function PrimaryActions(existing: seq<Action>): (r: seq<Action>)
    ensures |r| == |existing| + 3 && r[..|existing|] == existing
  {
    existing + [PlayPauseAction] + [SkipBackwardAction, SkipForwardAction]
  }

  /** One event of a run.  A timer event with no launched task does nothing. */
  function Step(g: Glue, e: Event): Glue {
    match e
    case KeyPress(keyCode) => OnKey(g, keyCode).next
    case ActionClick(action) => OnActionClicked(g, action)
    case ResetTimerFires => if g.pendingResets > 0 then ResetFires(g) else g
    case ProgressTick => OnUpdateProgress(g)
  }

  /** The state after a whole run of events. */
  function Run(g: Glue, events: seq<Event>): (r: Glue)
    ensures r.duration == g.duration
    ensures r.popCount >= g.popCount
    ensures r.progressCallbacks >= g.progressCallbacks
    decreases |events|
  {
    if events == [] then g else Run(Step(g, events[0]), events[1..])
  }

  /**
   * The exit-confirmation invariant: the flag is set exactly when one reset
   * task is pending, and never more than one is.
   */
  predicate ResetInvariant(g: Glue) {
    g.pendingResets == if g.backPressed then 1 else 0
  }

  /** The player position lies within the content. */
  predicate PositionInRange(g: Glue) {
    0 <= g.position <= g.duration
  }
}
