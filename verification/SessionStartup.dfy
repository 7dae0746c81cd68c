/**
 Starting up: each phase waits for exactly the applications that were launched
 in it, and the next one begins when the last of them has shown up or gone, or
 when the time is up.
 */
module SessionStartup {
  import opened Wrappers
  import opened Session
  import opened SessionInvariant
  import opened SessionFrames

  /** The applications that belong to a phase: enabled, not delayed, and launched. */
  function Due(apps: map<App, AppInfo>, p: Phase, env: Env): set<App> {
    set a | a in apps && apps[a].phase == p && !apps[a].disabled && !apps[a].delayed && a in env.launched
  }

  /** What is waited for belongs to the phase. */
  predicate PendingOk(s: State) {
    forall a | a in s.pending :: a in s.apps && s.apps[a].phase == s.phase && !s.apps[a].disabled && !s.apps[a].delayed
  }

  /** From one phase to another, waiting for what is due there, and skipping only phases in which nothing was. */
  predicate MovedOn(s: State, t: State, from: Phase, env: Env) {
    && t.pending == (if t.phase < APPLICATION then Due(s.apps, t.phase, env) else {})
    && t.apps == s.apps
    && forall p: Phase | from <= p < t.phase && p < APPLICATION :: Due(s.apps, p, env) == {}
  }

  lemma {:induction false} StartPhaseAwaits(s: State, env: Env)
    requires s.phase <= RUNNING
    ensures MovedOn(s, StartPhase(s, env), s.phase, env)
    decreases RUNNING - s.phase
  {
    var b := Begin(s, env);
    BeginFrame(s, env);
    assert Startable(Reset(s), env) == Due(s.apps, s.phase, env);
    if GoesOn(b) {
      var u := Advance(Finish(b, env));
      assert StartPhase(s, env) == StartPhase(u, env);
      StartPhaseAwaits(u, env);
      StartPhaseFrame(u, env);
    }
  }

  lemma EndPhaseAwaits(s: State, env: Env)
    requires s.phase < RUNNING
    ensures var t := EndPhase(s, env); t.phase > s.phase && MovedOn(s, t, s.phase + 1, env)
  {
    var u := Advance(Finish(s, env));
    StartPhaseAwaits(u, env);
    StartPhaseFrame(u, env);
  }

  // ----- what each event does to the waiting -----

  predicate Accepted(s: State, e: Event) {
    match e
    case EvRegisterXsmp(c, previous, _) =>
      c in s.clients && s.clients[c].bus.None? && s.phase < QUERY_END_SESSION && previous != "" && !Taken(s, previous)
    case EvRegisterDBus(startupId, _, _, _) =>
      s.phase < QUERY_END_SESSION && !(startupId != "" && Taken(s, startupId))
    case _ => false
  }

  /** The applications that this event shows to have come up, or gone. */
  function Signals(s: State, e: Event): set<App> {
    match e
    case EvAppSignal(a) => {a}
    case EvRegisterXsmp(_, _, found) => if Accepted(s, e) && found.Some? then {found.value} else {}
    case EvRegisterDBus(_, _, _, found) => if Accepted(s, e) && found.Some? then {found.value} else {}
    case _ => {}
  }

  /** What makes a startup phase end. */
  predicate Completes(s: State, e: Event) {
    if s.phase == STARTUP then e.EvStart? else e.EvPhaseTimeout? || s.pending <= Signals(s, e)
  }

  predicate Awaits(s: State, e: Event, t: State, env: Env) {
    && t.apps == s.apps
    && (t.phase != s.phase <==> Completes(s, e))
    && (if t.phase == s.phase then t.pending == s.pending - Signals(s, e)
        else s.phase < t.phase && MovedOn(s, t, s.phase + 1, env))
  }

  /** Neither the phase nor the waiting is touched. */
  predicate Still(s: State, t: State) {
    t.apps == s.apps && t.phase == s.phase && t.pending == s.pending
  }

  lemma StillAwaits(s: State, e: Event, t: State, env: Env)
    requires Shape(s) && s.phase < RUNNING && Still(s, t)
    requires Signals(s, e) == {} && !e.EvStart? && !e.EvPhaseTimeout?
    ensures Awaits(s, e, t, env)
  {
    assert s.pending - {} == s.pending && (s.pending <= {} ==> s.pending == {});
  }

  lemma SignalAwaits(s: State, a: App, env: Env)
    requires Shape(s) && s.phase < RUNNING
    ensures var t := AppSignal(s, a, env);
            && t.apps == s.apps && (t.phase != s.phase <==> s.phase != STARTUP && s.pending <= {a})
            && (if t.phase == s.phase then t.pending == s.pending - {a}
                else s.phase < t.phase && MovedOn(s, t, s.phase + 1, env))
  {
    if a in s.pending {
      assert s.pending - {a} == {} <==> s.pending <= {a};
      EndPhaseAwaits(s.(pending := s.pending - {a}, phaseTimer := 0), env);
    } else {
      assert s.pending - {a} == s.pending && (s.pending <= {a} ==> s.pending == {});
    }
  }

  lemma RemovalStill(s: State, gone: set<InhibitorId>, env: Env)
    requires Inv(s) && s.phase < QUERY_END_SESSION
    ensures Still(s, RemoveInhibitors(s, gone, env)) && Inv(RemoveInhibitors(s, gone, env))
  {
    RemoveInhibitorsInv(s, gone, env);
    RemoveInhibitorsPhase(s, gone, env);
  }

  lemma {:induction false} DropAllStill(s: State, list: seq<ClientId>, name: Option<string>, env: Env)
    requires Inv(s) && s.phase < QUERY_END_SESSION
    ensures Still(s, DropAll(s, list, name, env)) && Inv(DropAll(s, list, name, env))
  {
    DropAllInv(s, list, name, env);
    if list != [] {
      var k := |list| - 1;
      DropAllStill(s, list[..k], name, env);
      var t := DropAll(s, list[..k], name, env);
      RemovalStill(t, JitsOf(t, list[k]), env);
    }
  }

  lemma LeaveStill(s: State, e: Event, env: Env)
    requires Inv(s) && s.phase < QUERY_END_SESSION && (e.EvClientGone? || e.EvBusNameLost? || e.EvBusLost?)
    ensures Still(s, ClientStep(s, e, env))
  {
    match e
    case EvClientGone(c) => RemovalStill(s, JitsOf(s, c), env);
    case EvBusNameLost(name) =>
      RemovalStill(s, OnBus(s, name), env);
      DropAllStill(RemoveInhibitors(s, OnBus(s, name), env), env.order, Some(name), env);
    case EvBusLost => DropAllStill(s, env.order, None, env);
    case _ =>
  }

  lemma RegistrationAwaits(s: State, e: Event, env: Env)
    requires Shape(s) && s.phase < RUNNING && (e.EvRegisterXsmp? || e.EvRegisterDBus?)
    ensures Awaits(s, e, ClientStep(s, e, env), env)
  {
    if Signals(s, e) == {} {
      StillAwaits(s, e, ClientStep(s, e, env), env);
    } else if e.EvRegisterXsmp? {
      SignalAwaits(s, e.found.value, env);
    } else {
      var id := if e.startupId == "" then env.generated else e.startupId;
      SignalAwaits(AddClient(s, Client(Some(e.bus), id, AppIdOr(s, e.found, e.appId), false)), e.found.value, env);
    }
  }

  lemma ClientAwaits(s: State, e: Event, env: Env)
    requires Inv(s) && s.phase < RUNNING && FromClient(e)
    ensures Awaits(s, e, ClientStep(s, e, env), env)
  {
    var t := ClientStep(s, e, env);
    if e.EvRegisterXsmp? || e.EvRegisterDBus? {
      RegistrationAwaits(s, e, env);
    } else {
      if e.EvClientGone? || e.EvBusNameLost? || e.EvBusLost? {
        LeaveStill(s, e, env);
      } else if e.EvUninhibit? {
        RemovalStill(s, WithCookie(s, e.cookie), env);
      }
      StillAwaits(s, e, t, env);
    }
  }

  lemma StartAwaits(s: State, env: Env)
    requires Inv(s) && s.phase < RUNNING
    ensures Awaits(s, EvStart, Start(s, env), env)
  {
    if s.phase == STARTUP {
      StartPhaseAwaits(s.(phase := INITIALIZATION), env);
      StartPhaseFrame(s.(phase := INITIALIZATION), env);
    } else {
      assert s.pending - {} == s.pending && (s.pending <= {} ==> s.pending == {});
    }
  }

  lemma OtherStill(s: State, e: Event, env: Env)
    requires Inv(s) && s.phase < RUNNING && !FromClient(e) && !e.EvStart? && !e.EvPhaseTimeout? && !e.EvAppSignal?
    ensures Still(s, OwnStep(s, e, env))
  {
  }

  lemma OwnAwaits(s: State, e: Event, env: Env)
    requires Inv(s) && s.phase < RUNNING && !FromClient(e)
    ensures Awaits(s, e, OwnStep(s, e, env), env)
  {
    if e.EvStart? {
      StartAwaits(s, env);
    } else if e.EvPhaseTimeout? {
      EndPhaseAwaits(s.(phaseTimer := 0), env);
    } else if e.EvAppSignal? {
      SignalAwaits(s, e.app, env);
    } else {
      OtherStill(s, e, env);
      StillAwaits(s, e, OwnStep(s, e, env), env);
    }
  }

  /**
   While the session starts up, a phase ends exactly when it is started, when its
   time is up, or when nothing is left to wait for; the next one in which there
   is something to wait for waits for just that.
   */
  lemma StartupStep(s: State, e: Event, env: Env)
    requires Inv(s) && s.phase < RUNNING
    ensures Awaits(s, e, Step(s, e, env), env)
  {
    if FromClient(e) {
      ClientAwaits(s, e, env);
    } else {
      OwnAwaits(s, e, env);
    }
  }

  lemma PendingStep(s: State, e: Event, env: Env)
    requires Inv(s) && Possible(s, e, env) && PendingOk(s)
    ensures PendingOk(Step(s, e, env))
  {
    StepInv(s, e, env);
    StepPhase(s, e, env);
    if s.phase < RUNNING {
      StartupStep(s, e, env);
    }
  }

  /** On every run: no disabled or delayed application is waited for, and none of another phase. */
  lemma {:induction false} PendingOverRuns(apps: map<App, AppInfo>, idleCounter: bool, es: seq<(Event, Env)>)
    requires PossibleRun(Initial(apps, idleCounter), es)
    ensures PendingOk(Run(Initial(apps, idleCounter), es))
  {
    if es != [] {
      var before := es[..|es| - 1];
      PendingOverRuns(apps, idleCounter, before);
      RunInv(apps, idleCounter, before);
      PendingStep(Run(Initial(apps, idleCounter), before), es[|es| - 1].0, es[|es| - 1].1);
    }
  }

  /** An application that has shown up is not waited for any more, in this phase or a later one. */
  lemma SignalledNotAwaited(s: State, a: App, env: Env)
    requires Shape(s) && PendingOk(s)
    ensures a !in AppSignal(s, a, env).pending
  {
    if a in s.pending {
      SignalAwaits(s, a, env);
    }
  }
}
