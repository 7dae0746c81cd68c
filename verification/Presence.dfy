/**
 User presence: one idle watch, kept armed exactly while idleness matters, and a
 status that remembers what it was before the session went idle.
 */
module Presence {
  import opened Wrappers
  import opened IdleMonitor

  const AVAILABLE: nat := 0
  const IDLE: nat := 3

  /** `monitor` is absent when the X server offers no idle counter. */
  datatype PresenceState = PresenceState(
    status: nat,
    saved: nat,
    enabled: bool,
    timeout: nat,
    screensaver: bool,
    watch: nat,
    monitor: Option<Monitor>)

  function Initial(monitor: bool): PresenceState {
    PresenceState(AVAILABLE, AVAILABLE, false, 0, false, 0, if monitor then Some(Monitor(map[], 1, 1)) else None)
  }

  predicate Wanted(p: PresenceState) {
    !p.screensaver && p.enabled && p.timeout > 0
  }

  function ResetWatch(p: PresenceState): PresenceState {
    if p.monitor.None? then p
    else
      var cleared := if p.watch > 0 then RemoveWatch(p.monitor.value, p.watch) else p.monitor.value;
      if Wanted(p) then p.(watch := cleared.serial, monitor := Some(AddWatch(cleared, p.timeout)))
      else p.(watch := 0, monitor := Some(cleared))
  }

  function SetEnabled(p: PresenceState, enabled: bool): PresenceState {
    if p.enabled == enabled then p else ResetWatch(p.(enabled := enabled))
  }

  function SetTimeout(p: PresenceState, timeout: nat): PresenceState {
    if p.timeout == timeout then p else ResetWatch(p.(timeout := timeout))
  }

  function SetIdle(p: PresenceState, idle: bool): PresenceState {
    if idle then
      if p.status == IDLE then p else p.(saved := p.status, status := IDLE)
    else
      if p.status != IDLE then p else p.(status := p.saved, saved := AVAILABLE)
  }

  function ScreensaverChanged(p: PresenceState, active: bool): PresenceState {
    if p.screensaver == active then p
    else SetIdle(ResetWatch(p.(screensaver := active)), active)
  }

  function ScreensaverGone(p: PresenceState): PresenceState {
    ResetWatch(SetIdle(p.(screensaver := false), false))
  }

  /** An alarm of the live watch fires: the positive one when the user has gone idle. */
  function AlarmFired(p: PresenceState, alarm: nat): PresenceState {
    if p.monitor.None? || p.watch !in p.monitor.value.watches then p
    else
      var w := p.monitor.value.watches[p.watch];
      if alarm == w.positive then SetIdle(p, true)
      else if alarm == w.negative then SetIdle(p, false)
      else p
  }

  /**
   The monitor holds the one watch that presence knows about, with the current
   timeout, exactly while a watch is wanted, and nothing otherwise.
   */
  predicate Valid(p: PresenceState) {
    && (p.monitor.None? ==> p.watch == 0)
    && (p.monitor.Some? ==>
          var m := p.monitor.value;
          && SerialsInRange(m)
          && (p.watch > 0 <==> Wanted(p))
          && (p.watch == 0 ==> m.watches == map[])
          && (p.watch > 0 ==>
                && m.watches.Keys == {p.watch}
                && m.watches[p.watch].interval == p.timeout
                && m.watches[p.watch].positive != m.watches[p.watch].negative))
  }

  datatype PresenceEvent =
    | Enable(enabled: bool)
    | Timeout(timeout: nat)
    | Screensaver(active: bool)
    | ScreensaverLeft
    | Status(status: nat)
    | Alarm(alarm: nat)

  function Next(p: PresenceState, e: PresenceEvent): PresenceState {
    match e
    case Enable(b) => SetEnabled(p, b)
    case Timeout(t) => SetTimeout(p, t)
    case Screensaver(b) => ScreensaverChanged(p, b)
    case ScreensaverLeft => ScreensaverGone(p)
    case Status(v) => p.(status := v)
    case Alarm(a) => AlarmFired(p, a)
  }

  /** Rebuilding the watch needs no agreement beforehand except on what is in the table. */
  lemma ResetWatchValid(p: PresenceState)
    requires p.monitor.None? ==> p.watch == 0
    requires p.monitor.Some? ==>
               && SerialsInRange(p.monitor.value)
               && p.monitor.value.watches.Keys == if p.watch > 0 then {p.watch} else {}
    ensures Valid(ResetWatch(p))
    ensures ResetWatch(p) == p.(watch := ResetWatch(p).watch, monitor := ResetWatch(p).monitor)
  {
    if p.monitor.Some? {
      var m := p.monitor.value;
      var cleared := if p.watch > 0 then RemoveWatch(m, p.watch) else m;
      assert cleared.watches == map[] by {
        assert cleared.watches.Keys == {};
      }
      if Wanted(p) {
        assert AddWatch(cleared, p.timeout).watches.Keys == {cleared.serial};
      }
    }
  }

  /** Every event keeps the watch table in agreement, even when the serial counter wraps. */
  lemma NextValid(p: PresenceState, e: PresenceEvent)
    requires Valid(p)
    ensures Valid(Next(p, e))
    ensures Next(p, e).monitor.Some? == p.monitor.Some?
    ensures Next(p, e).enabled == if e.Enable? then e.enabled else p.enabled
    ensures Next(p, e).timeout == if e.Timeout? then e.timeout else p.timeout
    ensures Next(p, e).screensaver == if e.Screensaver? then e.active else p.screensaver && !e.ScreensaverLeft?
  {
    match e
    case Enable(b) => ResetWatchValid(p.(enabled := b));
    case Timeout(t) => ResetWatchValid(p.(timeout := t));
    case Screensaver(b) => ResetWatchValid(p.(screensaver := b));
    case ScreensaverLeft => ResetWatchValid(SetIdle(p.(screensaver := false), false));
    case Status(_) =>
    case Alarm(_) =>
  }

  ghost function Run(p: PresenceState, es: seq<PresenceEvent>): PresenceState {
    if es == [] then p else Next(Run(p, es[..|es| - 1]), es[|es| - 1])
  }

  /** Over every run, at most one watch exists and the serial it took was free, wrapped or not. */
  lemma {:induction false} WatchOverRuns(available: bool, es: seq<PresenceEvent>)
    ensures var p := Run(Initial(available), es);
            && Valid(p)
            && (p.monitor.Some? <==> available)
            && (available ==> (Wanted(p) <==> |p.monitor.value.watches| == 1))
            && (available ==> (!Wanted(p) <==> |p.monitor.value.watches| == 0))
  {
    if es == [] {
    } else {
      WatchOverRuns(available, es[..|es| - 1]);
      NextValid(Run(Initial(available), es[..|es| - 1]), es[|es| - 1]);
    }
    var p := Run(Initial(available), es);
    if available && Wanted(p) {
      assert |p.monitor.value.watches.Keys| == 1;
    }
  }

  /** A pair of alarms of the live watch is invisible afterwards: the status comes back. */
  lemma IdleIsUndone(p: PresenceState)
    requires Valid(p) && p.watch > 0 && p.status != IDLE
    ensures p.monitor.Some? && p.watch in p.monitor.value.watches
    ensures var w := p.monitor.value.watches[p.watch];
            var away := AlarmFired(p, w.positive);
            && away.status == IDLE
            && AlarmFired(away, w.negative) == p.(saved := AVAILABLE)
  {
  }

  // ----- the status that others see -----

  /**
   A bystander's note: whether the user is away, the status that he comes back
   to, and the one that was kept aside when he last chose a status while away.
   */
  datatype Note = Note(away: bool, own: nat, left: nat)

  /** Whether an alarm says that the user has gone idle, or has come back, or nothing. */
  function Tells(p: PresenceState, alarm: nat): Option<bool> {
    if p.monitor.None? || p.watch !in p.monitor.value.watches then None
    else if alarm == p.monitor.value.watches[p.watch].positive then Some(true)
    else if alarm == p.monitor.value.watches[p.watch].negative then Some(false)
    else None
  }

  function GoneOrBack(n: Note, away: bool): Note {
    if away then n.(away := true) else Note(false, n.own, if n.away then AVAILABLE else n.left)
  }

  function Chosen(n: Note, status: nat): Note {
    if status != IDLE then Note(false, status, if n.away then n.own else n.left)
    else if n.away then n
    else Note(true, n.left, n.left)
  }

  function NoteAfter(n: Note, p: PresenceState, e: PresenceEvent): Note {
    match e
    case Screensaver(active) => if active != p.screensaver then GoneOrBack(n, active) else n
    case ScreensaverLeft => GoneOrBack(n, false)
    case Alarm(a) => if Tells(p, a).Some? then GoneOrBack(n, Tells(p, a).value) else n
    case Status(v) => Chosen(n, v)
    case Enable(_) | Timeout(_) => n
  }

  ghost function Seen(p: PresenceState, es: seq<PresenceEvent>): Note {
    if es == [] then Note(false, p.status, p.saved)
    else NoteAfter(Seen(p, es[..|es| - 1]), Run(p, es[..|es| - 1]), es[|es| - 1])
  }

  /** Idle while away, with the status to come back to kept aside; and that status otherwise. */
  predicate Shows(p: PresenceState, n: Note) {
    && n.own != IDLE && n.left != IDLE
    && (if n.away then p.status == IDLE && p.saved == n.own else p.status == n.own && p.saved == n.left)
  }

  lemma ShowsStep(n: Note, p: PresenceState, e: PresenceEvent)
    requires Shows(p, n)
    ensures Shows(Next(p, e), NoteAfter(n, p, e))
  {
  }

  /**
   Over every run: the status is idle from the time the screensaver comes on or
   the idle alarm fires, until the screensaver goes, activity is seen or another
   status is chosen; and otherwise it is the one that was chosen. Choosing idle by
   hand counts as going away, with the status to come back to that was last kept
   aside.
   */
  lemma {:induction false} StatusOverRuns(available: bool, es: seq<PresenceEvent>)
    ensures Shows(Run(Initial(available), es), Seen(Initial(available), es))
  {
    if es != [] {
      StatusOverRuns(available, es[..|es| - 1]);
      ShowsStep(Seen(Initial(available), es[..|es| - 1]), Run(Initial(available), es[..|es| - 1]), es[|es| - 1]);
    }
  }

  class PresenceMonitor {
    var status: nat
    var saved: nat
    var enabled: bool
    var timeout: nat
    var screensaver: bool
    var watch: nat
    const monitor: WatchTable?

    ghost function State(): PresenceState
      reads this, monitor
    {
      PresenceState(status, saved, enabled, timeout, screensaver, watch,
                    if monitor == null then None else Some(monitor.State()))
    }

    constructor (available: bool)
      ensures State() == Initial(available)
      ensures monitor != null ==> fresh(monitor)
    {
      status, saved, enabled, timeout, screensaver, watch := AVAILABLE, AVAILABLE, false, 0, false, 0;
      if available {
        var m := new WatchTable();
        monitor := m;
      } else {
        monitor := null;
      }
    }

    method ResetIdleWatch()
      modifies this`watch, monitor
      ensures State() == ResetWatch(old(State()))
    {
      if monitor == null {
        return;
      }
      if watch > 0 {
        monitor.Remove(watch);
        watch := 0;
      }
      if !screensaver && enabled && timeout > 0 {
        watch := monitor.Add(timeout);
      }
    }

    method SetSessionIdle(idle: bool)
      modifies this`status, this`saved
      ensures State() == SetIdle(old(State()), idle)
    {
      if idle {
        if status == IDLE {
          return;
        }
        saved := status;
        status := IDLE;
      } else {
        if status != IDLE {
          return;
        }
        status := saved;
        saved := AVAILABLE;
      }
    }

    method SetIdleEnabled(b: bool)
      modifies this, monitor
      ensures State() == SetEnabled(old(State()), b)
    {
      if enabled != b {
        enabled := b;
        ResetIdleWatch();
      }
    }

    method SetIdleTimeout(t: nat)
      modifies this, monitor
      ensures State() == SetTimeout(old(State()), t)
    {
      if timeout != t {
        timeout := t;
        ResetIdleWatch();
      }
    }

    method OnScreensaverChanged(active: bool)
      modifies this, monitor
      ensures State() == ScreensaverChanged(old(State()), active)
    {
      if screensaver != active {
        screensaver := active;
        ResetIdleWatch();
        SetSessionIdle(active);
      }
    }

    method OnScreensaverGone()
      modifies this, monitor
      ensures State() == ScreensaverGone(old(State()))
    {
      screensaver := false;
      SetSessionIdle(false);
      ResetIdleWatch();
    }

    method SetStatus(value: nat)
      modifies this`status
      ensures State() == old(State()).(status := value)
    {
      status := value;
    }

    method OnAlarm(alarm: nat)
      requires Valid(State())
      modifies this`status, this`saved
      ensures State() == AlarmFired(old(State()), alarm)
    {
      if monitor == null {
        return;
      }
      var found := monitor.FindAlarm(alarm);
      if found.Some? {
        SetSessionIdle(found.value);
      } else if watch > 0 {
        assert !Owns(monitor.State(), watch, alarm);
      }
    }
  }
}
