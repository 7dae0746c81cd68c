/**
 The session ends as was requested. A bystander notes the ending asked for by
 the request that started the logout, and forgets it when the logout is taken
 back; whatever the session quits with is what stands in the note.
 */
module SessionRequests {
  import opened Wrappers
  import opened Session
  import opened SessionInvariant
  import opened SessionFrames
  import opened SessionRounds
  import opened SessionMessages

  // ----- the bystander's note -----

  function NoteAfter(note: Ending, s: State, e: Event, t: State): Ending {
    if t.phase < QUERY_END_SESSION then NoEnding
    else if s.phase < QUERY_END_SESSION then RequestedEnding(e)
    else note
  }

  ghost function Wish(s: State, es: seq<(Event, Env)>): Ending {
    if es == [] then NoEnding
    else NoteAfter(Wish(s, es[..|es| - 1]), Run(s, es[..|es| - 1]), es[|es| - 1].0, Run(s, es))
  }

  /** The question that belongs to an ending: a reboot or shutdown in whatever way, or else a logout. */
  predicate AsksFor(a: Action, ending: Ending) {
    && (a.ActReboot? <==> ending.Reboot? || ending.RebootInteract? || ending.RebootMdm?)
    && (a.ActShutdown? <==> ending.Shutdown? || ending.ShutdownInteract? || ending.ShutdownMdm?)
    && EndsSession(a)
  }

  /** The note says how the session will end, and so does an open logout dialog. */
  predicate Noted(note: Ending, s: State) {
    && (s.phase >= QUERY_END_SESSION ==> note == s.ending)
    && (s.dialog.Some? && EndsSession(s.dialog.value.action) ==>
          s.phase >= QUERY_END_SESSION && AsksFor(s.dialog.value.action, note))
  }

  /** Quitting happens on the exit, as noted, and on reaching the exit it happens. */
  predicate QuitsAs(note: Ending, s: State, t: State) {
    && s.log <= t.log
    && (forall m | m in New(s, t) && m.Quit? :: t.phase == EXIT && m.ending == note)
    && (s.phase < EXIT == t.phase ==> Quit(note) in New(s, t))
  }

  lemma SaidNoted(note: Ending, s: State, t: State, env: Env)
    requires Noted(note, s) && s.phase >= QUERY_END_SESSION && Said(s, t, env)
    ensures Noted(note, t) && QuitsAs(note, s, t)
  {
  }

  lemma SleepNoted(note: Ending, s: State, a: Action, env: Env)
    requires Noted(note, s)
    ensures var t := RequestSleep(s, a, env);
            Noted(note, t) && s.log <= t.log && t.phase == s.phase && forall m | m in New(s, t) :: m.Perform?
  {
    SleepSays(s, a, env);
  }

  lemma LogoutNoted(note: Ending, s: State, e: Event, env: Env)
    requires Inv(s) && Possible(s, e, env) && Noted(note, s) && s.phase >= QUERY_END_SESSION
    ensures var t := Step(s, e, env);
            var after := NoteAfter(note, s, e, t);
            Noted(after, t) && QuitsAs(after, s, t)
  {
    var t := Step(s, e, env);
    if Cancels(s, e) {
      CancelSays(s, e, env);
    } else if e.EvSleep? {
      SleepNoted(note, s, e.action, env);
    } else if e.EvConnect? {
      assert New(s, t) == [];
    } else {
      LogoutSays(s, e, env);
      SaidNoted(note, s, t, env);
    }
  }

  lemma OutsideNoted(note: Ending, s: State, e: Event, env: Env)
    requires Inv(s) && Possible(s, e, env) && s.phase < QUERY_END_SESSION
    ensures var t := Step(s, e, env);
            var after := NoteAfter(note, s, e, t);
            Noted(after, t) && QuitsAs(after, s, t)
  {
    var t := Step(s, e, env);
    StepInv(s, e, env);
    QueryAsksEverybody(s, e, env);
    if t.phase < QUERY_END_SESSION {
      if FromClient(e) {
        ClientBusy(s, e, env);
      } else {
        OwnBusy(s, e, env);
      }
    } else {
      BeginsUnasked(s, e, env);
    }
  }

  /** A logout starts with no logout dialog up. */
  lemma BeginsUnasked(s: State, e: Event, env: Env)
    requires Inv(s) && StartsLogout(s, e, env)
    ensures Step(s, e, env).dialog == s.dialog
  {
    if e.EvLogout? {
      EndPhaseFrame(s.(mode := e.mode, ending := Logout), env);
    } else {
      EndPhaseFrame(s.(ending := e.ending), env);
    }
  }

  /**
   A query that is answered and inhibited waits for a dialog: the one that is up,
   whatever it is about, or else a new one about the ending, listing everything.
   */
  lemma QueryWaitsForDialog(s: State, env: Env)
    requires s.phase == QUERY_END_SESSION && Inhibited(s.inhibitors, FlagLogout)
    ensures var t := QueryComplete(s, env);
            && t == s.(queryTimer := 0, dialog := t.dialog) && t.dialog.Some?
            && (s.dialog.Some? ==> t.dialog == s.dialog)
            && (s.dialog.None? ==> AsksFor(t.dialog.value.action, s.ending) && t.dialog.value.rows == s.inhibitors.Keys)
  {
  }

  // ----- whole runs -----

  lemma {:induction false} WishNoted(apps: map<App, AppInfo>, idleCounter: bool, es: seq<(Event, Env)>)
    requires PossibleRun(Initial(apps, idleCounter), es)
    ensures Noted(Wish(Initial(apps, idleCounter), es), Run(Initial(apps, idleCounter), es))
  {
    if es != [] {
      var before := es[..|es| - 1];
      WishNoted(apps, idleCounter, before);
      RequestStep(apps, idleCounter, before, es[|es| - 1].0, es[|es| - 1].1);
    }
  }

  lemma RequestStep(apps: map<App, AppInfo>, idleCounter: bool, es: seq<(Event, Env)>, e: Event, env: Env)
    requires PossibleRun(Initial(apps, idleCounter), es) && Possible(Run(Initial(apps, idleCounter), es), e, env)
    requires Noted(Wish(Initial(apps, idleCounter), es), Run(Initial(apps, idleCounter), es))
    ensures var s := Run(Initial(apps, idleCounter), es);
            var t := Step(s, e, env);
            var after := NoteAfter(Wish(Initial(apps, idleCounter), es), s, e, t);
            Noted(after, t) && QuitsAs(after, s, t)
  {
    var s := Run(Initial(apps, idleCounter), es);
    RunInv(apps, idleCounter, es);
    if s.phase < QUERY_END_SESSION {
      OutsideNoted(Wish(Initial(apps, idleCounter), es), s, e, env);
    } else {
      LogoutNoted(Wish(Initial(apps, idleCounter), es), s, e, env);
    }
  }

  /**
   On every run: the session quits only on the exit, always when it gets there,
   and with the ending of the latest request that started a logout and was not
   taken back; an open logout dialog names the action of that ending.
   */
  lemma QuitsAsRequested(apps: map<App, AppInfo>, idleCounter: bool, es: seq<(Event, Env)>, e: Event, env: Env)
    requires PossibleRun(Initial(apps, idleCounter), es + [(e, env)])
    ensures var s := Run(Initial(apps, idleCounter), es);
            var t := Step(s, e, env);
            var wish := Wish(Initial(apps, idleCounter), es + [(e, env)]);
            && QuitsAs(wish, s, t)
            && (t.dialog.Some? && EndsSession(t.dialog.value.action) ==> AsksFor(t.dialog.value.action, wish))
  {
    var all := es + [(e, env)];
    assert all[..|all| - 1] == es;
    WishNoted(apps, idleCounter, es);
    RequestStep(apps, idleCounter, es, e, env);
  }

  /** And between two events of a run, everything that is sent within a logout fits and is complete. */
  lemma SaidOverRuns(apps: map<App, AppInfo>, idleCounter: bool, es: seq<(Event, Env)>, e: Event, env: Env)
    requires PossibleRun(Initial(apps, idleCounter), es) && Possible(Run(Initial(apps, idleCounter), es), e, env)
    ensures var s := Run(Initial(apps, idleCounter), es);
            var t := Step(s, e, env);
            && (s.phase < QUERY_END_SESSION <= t.phase ==>
                  StartsLogout(s, e, env) && QueryAsked(s, t, RequestedEnding(e), RequestedMode(e), env))
            && (Cancels(s, e) ==> TakenBack(s, t))
            && (s.phase >= QUERY_END_SESSION && !Cancels(s, e) && !e.EvSleep? && !e.EvConnect? ==> Said(s, t, env))
  {
    var s := Run(Initial(apps, idleCounter), es);
    RunInv(apps, idleCounter, es);
    if s.phase < QUERY_END_SESSION {
      QueryAsksEverybody(s, e, env);
    } else if Cancels(s, e) {
      CancelSays(s, e, env);
    } else if !e.EvSleep? && !e.EvConnect? {
      LogoutSays(s, e, env);
    }
  }
}
