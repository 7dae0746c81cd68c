/**
 A session that is ending never waits for nothing, with one exception, which
 is pinned down exactly: an inhibit dialog opened for suspending, hibernating
 or switching users that is still up when the logout starts.
 */
module SessionLiveness {
  import opened Wrappers
  import opened Session
  import opened SessionInvariant
  import opened SessionFrames

  /** The query is open, but neither its timer nor a dialog will close it. */
  predicate Wedged(s: State) {
    s.phase == QUERY_END_SESSION && s.queryTimer == 0 && s.dialog.None?
  }

  /** The dialog on the screen belongs to something else than ending the session. */
  predicate Foreign(s: State) {
    s.dialog.Some? && !EndsSession(s.dialog.value.action)
  }

  /** All that keeps the query alive is a foreign dialog. */
  predicate Hanging(s: State) {
    s.phase == QUERY_END_SESSION && s.queryTimer == 0 && Foreign(s)
  }

  predicate OnlyStrangers(s: State, name: string) {
    forall c | c in s.clients :: s.clients[c].bus != Some(name)
  }

  /** The events that close the dialog and leave the query to itself. */
  predicate Unhooks(s: State, e: Event) {
    || e.EvAccept?
    || e.EvDecline?
    || (e.EvUninhibit? && s.inhibitors.Keys <= WithCookie(s, e.cookie))
    || (e.EvBusNameLost? && e.name != "" && s.inhibitors.Keys <= OnBus(s, e.name)
        && s.clients != map[] && OnlyStrangers(s, e.name))
  }

  // ----- the handlers, one by one -----

  lemma EndPhaseAwake(s: State, env: Env)
    requires s.phase != QUERY_END_SESSION || !Stays(s, env)
    ensures !Wedged(EndPhase(s, env))
  {
    EndPhaseFrame(s, env);
    if s.phase == RUNNING && !Stays(s, env) {
      assert EndPhase(s, env) == Begin(Advance(Finish(s, env)), env);
    }
  }

  lemma Covered<T>(a: set<T>, b: set<T>)
    ensures a - b == {} <==> a <= b
  {
    assert a <= b + (a - b);
  }

  lemma RemoveInhibitorsAwake(s: State, gone: set<InhibitorId>, env: Env)
    requires Inv(s) && !Wedged(s)
    ensures Wedged(RemoveInhibitors(s, gone, env)) <==> Hanging(s) && s.inhibitors.Keys <= gone
  {
    RemoveInhibitorsPhase(s, gone, env);
    if Hanging(s) {
      assert s.dialog.value.rows == s.inhibitors.Keys && s.inhibitors.Keys != {};
      Covered(s.inhibitors.Keys, gone);
      if gone !! s.inhibitors.Keys {
        assert !(s.inhibitors.Keys <= gone);
      }
    }
  }

  lemma AfterAnswerAwake(s: State, c: ClientId, last: bool, env: Env)
    requires Shape(s)
    ensures !Wedged(AfterAnswer(s, c, last, env))
  {
    if s.phase == QUERY_END_SESSION && s.query == [] {
      EndPhaseAwake(s.(queryTimer := 0), env);
    } else if s.phase == END_SESSION {
      EndPhaseAwake(if last then s.(next := [c] + s.next) else s, env);
    }
  }

  /** However badly things stood, an answer during a logout sets the query right. */
  lemma AnswerAwake(s: State, c: ClientId, ok: bool, last: bool, cancel: bool, env: Env)
    requires Inv(s) && c < s.nextClient
    ensures !Wedged(Answer(s, c, ok, last, cancel, env))
  {
    if s.phase < QUERY_END_SESSION {
    } else if cancel {
      CancelResult(s, env);
    } else {
      RemoveFirstWithin(s.query, c);
      QueryShrinksInv(s, c);
      var t := s.(query := RemoveFirst(s.query, c));
      if !ok && t.mode != Force {
        AfterAnswerAwake(AddJit(t, c, env), c, last, env);
      } else {
        RemoveInhibitorsInv(t, JitsOf(t, c), env);
        AfterAnswerAwake(RemoveInhibitors(t, JitsOf(t, c), env), c, last, env);
      }
    }
  }

  lemma DropAwake(s: State, c: ClientId, env: Env)
    requires Inv(s) && c < s.nextClient
    ensures !Wedged(Drop(s, c, env))
  {
    var t := RemoveInhibitors(s, JitsOf(s, c), env);
    RemoveInhibitorsInv(s, JitsOf(s, c), env);
    RemoveInhibitorsFrame(s, JitsOf(s, c), env);
    if t.phase == QUERY_END_SESSION {
      AnswerAwake(t, c, true, false, false, env);
    }
  }

  predicate Matches(s: State, c: ClientId, name: Option<string>) {
    c in s.clients && s.clients[c].bus.Some? && (name.None? || s.clients[c].bus == name)
  }

  predicate Misses(s: State, list: seq<ClientId>, name: Option<string>) {
    forall c | c in list :: !Matches(s, c, name)
  }

  lemma MissesLast(s: State, list: seq<ClientId>, name: Option<string>)
    requires list != []
    ensures Misses(s, list, name) <==> Misses(s, list[..|list| - 1], name) && !Matches(s, list[|list| - 1], name)
  {
    assert list == list[..|list| - 1] + [list[|list| - 1]];
  }

  ghost function DropIf(s: State, c: ClientId, name: Option<string>, env: Env): State {
    if Matches(s, c, name) then Drop(s, c, env) else s
  }

  lemma DropIfAwake(s: State, c: ClientId, name: Option<string>, env: Env)
    requires Inv(s)
    ensures if Matches(s, c, name) then !Wedged(DropIf(s, c, name, env)) else DropIf(s, c, name, env) == s
  {
    if Matches(s, c, name) {
      DropAwake(s, c, env);
    }
  }

  /** Dropping clients can leave the query to itself only if it was, and no client was dropped. */
  lemma {:induction false} DropAllAwake(s: State, list: seq<ClientId>, name: Option<string>, env: Env)
    requires Inv(s)
    ensures Misses(s, list, name) ==> DropAll(s, list, name, env) == s
    ensures !Misses(s, list, name) || !Wedged(s) ==> !Wedged(DropAll(s, list, name, env))
  {
    if list != [] {
      var k := |list| - 1;
      DropAllAwake(s, list[..k], name, env);
      DropAllInv(s, list[..k], name, env);
      DropIfAwake(DropAll(s, list[..k], name, env), list[k], name, env);
      MissesLast(s, list, name);
      assert DropAll(s, list, name, env) == DropIf(DropAll(s, list[..k], name, env), list[k], name, env);
    }
  }

  lemma ExitIfEmptyAwake(s: State, env: Env)
    ensures Wedged(ExitIfEmpty(s, env)) <==> Wedged(s) && s.clients != map[]
  {
    if s.phase >= QUERY_END_SESSION && s.clients == map[] {
      EndPhaseAwake(s, env);
    }
  }

  lemma ClientGoneAwake(s: State, c: ClientId, env: Env)
    requires Inv(s) && !Wedged(s)
    ensures !Wedged(ClientGone(s, c, env))
  {
    if c in s.clients && s.clients[c].bus.None? && s.clients[c].watched {
      DropAwake(s, c, env);
      ExitIfEmptyAwake(Drop(s, c, env), env);
    }
  }

  lemma BusLostAwake(s: State, env: Env)
    requires Inv(s) && !Wedged(s)
    ensures !Wedged(BusLost(s, env))
  {
    DropAllAwake(s, env.order, None, env);
    ExitIfEmptyAwake(DropAll(s, env.order, None, env), env);
  }

  lemma MissesStrangers(s: State, t: State, order: seq<ClientId>, name: string)
    requires Walks(order, s.clients) && t.clients == s.clients
    ensures Misses(t, order, Some(name)) <==> OnlyStrangers(s, name)
  {
    if Misses(t, order, Some(name)) {
      forall c | c in s.clients
        ensures s.clients[c].bus != Some(name)
      {
        assert c in order;
        assert !Matches(t, c, Some(name));
      }
    }
  }

  lemma BusNameLostAwake(s: State, name: string, env: Env)
    requires Inv(s) && !Wedged(s) && Walks(env.order, s.clients)
    ensures Wedged(BusNameLost(s, name, env)) <==> Hanging(s) && Unhooks(s, EvBusNameLost(name))
  {
    if name != "" {
      var t := RemoveInhibitors(s, OnBus(s, name), env);
      var u := DropAll(t, env.order, Some(name), env);
      RemoveInhibitorsAwake(s, OnBus(s, name), env);
      RemoveInhibitorsInv(s, OnBus(s, name), env);
      RemoveInhibitorsFrame(s, OnBus(s, name), env);
      MissesStrangers(s, t, env.order, name);
      DropAllAwake(t, env.order, Some(name), env);
      ExitIfEmptyAwake(u, env);
      assert BusNameLost(s, name, env) == ExitIfEmpty(u, env);
    }
  }

  lemma AcceptAwake(s: State, env: Env)
    requires !Wedged(s)
    ensures Wedged(Accept(s, env)) <==> Hanging(s)
  {
    EndPhaseAwake(s.(dialog := None, mode := Force), env);
  }

  lemma DeclineAwake(s: State, env: Env)
    requires !Wedged(s)
    ensures Wedged(Decline(s, env)) <==> Hanging(s)
  {
    if s.phase >= QUERY_END_SESSION {
      CancelResult(s.(dialog := None), env);
    }
  }

  lemma QueryTimeoutAwake(s: State, env: Env)
    requires Shape(s) && !Wedged(s)
    ensures !Wedged(QueryTimeout(s, env))
  {
    if s.queryTimer != 0 {
      var t := s.(queryTimer := 0);
      AddJitsFrame(t, t.query, env);
      var u := (if t.mode == Force then t else AddJits(t, t.query, env)).(query := []);
      EndPhaseAwake(u.(queryTimer := 0), env);
    }
  }

  lemma StartAwake(s: State, e: Event, env: Env)
    requires Inv(s) && !Wedged(s) && EndsPhases(e) && !e.EvQueryTimeout?
    ensures !Wedged(OwnStep(s, e, env))
  {
    match e
    case EvStart => if s.phase == STARTUP { StartPhaseFrame(s.(phase := INITIALIZATION), env); }
    case EvAppSignal(a) => if a in s.pending { EndPhaseAwake(s.(pending := s.pending - {a}, phaseTimer := 0), env); }
    case EvPhaseTimeout => if s.phaseTimer != 0 { EndPhaseAwake(s.(phaseTimer := 0), env); }
    case EvLogout(mode) => if s.phase == RUNNING { EndPhaseAwake(s.(mode := mode, ending := Logout), env); }
    case EvHalt(ending) => if s.phase == RUNNING { EndPhaseAwake(s.(ending := ending), env); }
    case _ =>
  }

  lemma OwnEventAwake(s: State, e: Event, env: Env)
    requires Inv(s) && !Wedged(s) && !FromClient(e)
    ensures Wedged(OwnStep(s, e, env)) <==> Hanging(s) && Unhooks(s, e)
  {
    if e.EvQueryTimeout? {
      QueryTimeoutAwake(s, env);
    } else if EndsPhases(e) {
      StartAwake(s, e, env);
    } else if e.EvAccept? {
      AcceptAwake(s, env);
    } else if e.EvDecline? {
      DeclineAwake(s, env);
    } else {
      AsideAwake(s, e, env);
    }
  }

  lemma AsideAwake(s: State, e: Event, env: Env)
    requires !Wedged(s) && (e.EvSleep? || e.EvPresence?)
    ensures !Wedged(OwnStep(s, e, env))
  {
  }

  lemma JoinAwake(s: State, e: Event, env: Env)
    requires Inv(s) && !Wedged(s) && (e.EvConnect? || e.EvRegisterXsmp? || e.EvRegisterDBus? || e.EvInhibit?)
    ensures !Wedged(ClientStep(s, e, env))
  {
    match e
    case EvRegisterXsmp(c, previous, app) => RegisterXsmpFrame(s, c, previous, app, env);
    case EvRegisterDBus(startupId, appId, bus, app) => RegisterDBusFrame(s, startupId, appId, bus, app, env);
    case _ =>
  }

  lemma LeaveAwake(s: State, e: Event, env: Env)
    requires Inv(s) && !Wedged(s) && (e.EvAnswer? || e.EvClientGone? || e.EvBusLost?)
    ensures !Wedged(ClientStep(s, e, env))
  {
    match e
    case EvAnswer(c, ok, last, cancel) => if c in s.clients { AnswerAwake(s, c, ok, last, cancel, env); }
    case EvClientGone(c) => ClientGoneAwake(s, c, env);
    case EvBusLost => BusLostAwake(s, env);
    case _ =>
  }

  lemma UninhibitAwake(s: State, cookie: nat, env: Env)
    requires Inv(s) && !Wedged(s)
    ensures Wedged(Uninhibit(s, cookie, env)) <==> Hanging(s) && Unhooks(s, EvUninhibit(cookie))
  {
    RemoveInhibitorsAwake(s, WithCookie(s, cookie), env);
  }

  lemma ClientEventAwake(s: State, e: Event, env: Env)
    requires Inv(s) && !Wedged(s) && FromClient(e) && Walks(env.order, s.clients)
    ensures Wedged(ClientStep(s, e, env)) <==> Hanging(s) && Unhooks(s, e)
  {
    if e.EvUninhibit? {
      UninhibitAwake(s, e.cookie, env);
    } else if e.EvBusNameLost? {
      BusNameLostAwake(s, e.name, env);
    } else if e.EvAnswer? || e.EvClientGone? || e.EvBusLost? {
      LeaveAwake(s, e, env);
    } else {
      JoinAwake(s, e, env);
    }
  }

  /** A session gets stuck by exactly these events, and only while a foreign dialog is all that the query waits for. */
  lemma StuckExactlyWhen(s: State, e: Event, env: Env)
    requires Inv(s) && Possible(s, e, env) && !Wedged(s)
    ensures Wedged(Step(s, e, env)) <==> Hanging(s) && Unhooks(s, e)
  {
    if FromClient(e) {
      ClientEventAwake(s, e, env);
    } else {
      OwnEventAwake(s, e, env);
    }
  }

  /** A stuck session stays stuck: timers and the user's own requests do not help. */
  lemma StuckStays(s: State, e: Event, env: Env)
    requires Inv(s) && Wedged(s)
    requires !e.EvAnswer? && !e.EvClientGone? && !e.EvBusNameLost? && !e.EvBusLost? && !e.EvSleep?
    ensures Wedged(Step(s, e, env))
  {
    if e.EvUninhibit? {
      RemoveInhibitorsPhase(s, WithCookie(s, e.cookie), env);
    }
  }

  // ----- foreign dialogs come from sleep requests only -----

  /** No foreign dialog appears. */
  predicate Tame(s: State, t: State) {
    Foreign(t) ==> Foreign(s)
  }

  lemma RemoveInhibitorsTame(s: State, gone: set<InhibitorId>, env: Env)
    ensures Tame(s, RemoveInhibitors(s, gone, env))
  {
    EndPhaseFrame(Without(s, gone).(dialog := None, mode := Force), env);
  }

  lemma AfterAnswerTame(s: State, c: ClientId, last: bool, env: Env)
    ensures Tame(s, AfterAnswer(s, c, last, env))
  {
    if s.phase == QUERY_END_SESSION {
      EndPhaseFrame(s.(queryTimer := 0), env);
    } else if s.phase == END_SESSION {
      EndPhaseFrame(if last then s.(next := [c] + s.next) else s, env);
    }
  }

  lemma AnswerTame(s: State, c: ClientId, ok: bool, last: bool, cancel: bool, env: Env)
    ensures Tame(s, Answer(s, c, ok, last, cancel, env))
  {
    if s.phase < QUERY_END_SESSION {
    } else if cancel {
      CancelTame(s, env);
    } else {
      var t := s.(query := RemoveFirst(s.query, c));
      RemoveInhibitorsTame(t, JitsOf(t, c), env);
      var u := if !ok && t.mode != Force then AddJit(t, c, env) else RemoveInhibitors(t, JitsOf(t, c), env);
      AfterAnswerTame(u, c, last, env);
    }
  }

  lemma CancelTame(s: State, env: Env)
    ensures Tame(s, Cancel(s, env))
  {
    if s.phase >= QUERY_END_SESSION {
      CancelResult(s, env);
      RemoveInhibitorsTame(s.(dialog := None), Jits(s), env);
    }
  }

  lemma DropTame(s: State, c: ClientId, env: Env)
    ensures Tame(s, Drop(s, c, env))
  {
    var t := RemoveInhibitors(s, JitsOf(s, c), env);
    RemoveInhibitorsTame(s, JitsOf(s, c), env);
    AnswerTame(t, c, true, false, false, env);
  }

  lemma {:induction false} DropAllTame(s: State, list: seq<ClientId>, name: Option<string>, env: Env)
    ensures Tame(s, DropAll(s, list, name, env))
  {
    if list != [] {
      DropAllTame(s, list[..|list| - 1], name, env);
      DropTame(DropAll(s, list[..|list| - 1], name, env), list[|list| - 1], env);
    }
  }

  lemma QueryTimeoutTame(s: State, env: Env)
    ensures Tame(s, QueryTimeout(s, env))
  {
    var t := s.(queryTimer := 0);
    AddJitsTame(t, t.query, env);
    var u := (if t.mode == Force then t else AddJits(t, t.query, env)).(query := []);
    EndPhaseFrame(u.(queryTimer := 0), env);
  }

  lemma {:induction false} AddJitsTame(s: State, list: seq<ClientId>, env: Env)
    ensures Tame(s, AddJits(s, list, env))
  {
    if list != [] {
      AddJitsTame(s, list[..|list| - 1], env);
    }
  }

  lemma LeaveTame(s: State, e: Event, env: Env)
    requires e.EvClientGone? || e.EvBusNameLost? || e.EvBusLost?
    ensures Tame(s, ClientStep(s, e, env))
  {
    match e
    case EvClientGone(c) =>
      DropTame(s, c, env);
      EndPhaseFrame(Drop(s, c, env), env);
    case EvBusNameLost(name) =>
      var t := RemoveInhibitors(s, OnBus(s, name), env);
      RemoveInhibitorsTame(s, OnBus(s, name), env);
      DropAllTame(t, env.order, Some(name), env);
      EndPhaseFrame(DropAll(t, env.order, Some(name), env), env);
    case EvBusLost =>
      DropAllTame(s, env.order, None, env);
      EndPhaseFrame(DropAll(s, env.order, None, env), env);
    case _ =>
  }

  lemma ClientEventTame(s: State, e: Event, env: Env)
    requires FromClient(e)
    ensures Tame(s, ClientStep(s, e, env))
  {
    if e.EvClientGone? || e.EvBusNameLost? || e.EvBusLost? {
      LeaveTame(s, e, env);
    } else {
      match e
      case EvAnswer(c, ok, last, cancel) => AnswerTame(s, c, ok, last, cancel, env);
      case EvUninhibit(cookie) => RemoveInhibitorsTame(s, WithCookie(s, cookie), env);
      case EvRegisterXsmp(c, previous, app) => if app.Some? { AppSignalFrame(s, app.value, env); }
      case EvRegisterDBus(startupId, appId, bus, app) =>
        if app.Some? {
          var id := if startupId == "" then env.generated else startupId;
          AppSignalFrame(AddClient(s, Client(Some(bus), id, AppIdOr(s, app, appId), false)), app.value, env);
        }
      case _ =>
    }
  }

  lemma OwnEventTame(s: State, e: Event, env: Env)
    requires !e.EvSleep?
    ensures Tame(s, OwnStep(s, e, env))
  {
    match e
    case EvStart => StartPhaseFrame(s.(phase := INITIALIZATION), env);
    case EvAppSignal(a) => AppSignalFrame(s, a, env);
    case EvPhaseTimeout => EndPhaseFrame(s.(phaseTimer := 0), env);
    case EvQueryTimeout => QueryTimeoutTame(s, env);
    case EvLogout(mode) => EndPhaseFrame(s.(mode := mode, ending := Logout), env);
    case EvHalt(ending) => EndPhaseFrame(s.(ending := ending), env);
    case EvAccept => EndPhaseFrame(s.(dialog := None, mode := Force), env);
    case EvDecline => CancelTame(s.(dialog := None), env);
    case _ =>
  }

  // ----- whole runs -----

  /** A run that ends up stuck went through a state where only a foreign dialog kept the query alive. */
  lemma {:induction false} StuckRunsHung(apps: map<App, AppInfo>, idleCounter: bool, es: seq<(Event, Env)>)
    requires PossibleRun(Initial(apps, idleCounter), es)
    requires Wedged(Run(Initial(apps, idleCounter), es))
    ensures exists k | 0 <= k < |es| :: Hanging(Run(Initial(apps, idleCounter), es[..k]))
  {
    var s0 := Initial(apps, idleCounter);
    if es != [] {
      var n := |es| - 1;
      var before := es[..n];
      RunInv(apps, idleCounter, before);
      if Wedged(Run(s0, before)) {
        StuckRunsHung(apps, idleCounter, before);
        var k :| 0 <= k < n && Hanging(Run(s0, before[..k]));
        assert es[..k] == before[..k];
      } else {
        StuckExactlyWhen(Run(s0, before), es[n].0, es[n].1);
        assert Hanging(Run(s0, es[..n]));
      }
    }
  }

  lemma {:induction false} NoSleepNoForeign(s: State, es: seq<(Event, Env)>)
    requires !Foreign(s) && forall k | 0 <= k < |es| :: !es[k].0.EvSleep?
    ensures !Foreign(Run(s, es))
  {
    if es != [] {
      var before := es[..|es| - 1];
      NoSleepNoForeign(s, before);
      var t, e, env := Run(s, before), es[|es| - 1].0, es[|es| - 1].1;
      if FromClient(e) {
        ClientEventTame(t, e, env);
      } else {
        OwnEventTame(t, e, env);
      }
    }
  }

  /** Without requests to suspend, hibernate or switch users, no session is ever stuck. */
  lemma NeverStuck(apps: map<App, AppInfo>, idleCounter: bool, es: seq<(Event, Env)>)
    requires PossibleRun(Initial(apps, idleCounter), es)
    requires forall k | 0 <= k < |es| :: !es[k].0.EvSleep?
    ensures !Wedged(Run(Initial(apps, idleCounter), es))
  {
    var s0 := Initial(apps, idleCounter);
    if Wedged(Run(s0, es)) {
      StuckRunsHung(apps, idleCounter, es);
      var k :| 0 <= k < |es| && Hanging(Run(s0, es[..k]));
      NoSleepNoForeign(s0, es[..k]);
    }
  }

  // ----- with silent clients, the timers and one click are enough -----

  /** One query timeout, one accepted dialog and one phase timeout end any logout that is not held up by a foreign dialog. */
  lemma SilentLogoutEnds(s: State, first: Env, second: Env, third: Env)
    requires Inv(s) && s.phase == QUERY_END_SESSION && !Wedged(s) && !Foreign(s)
    requires Fair(first.random) && |s.inhibitors| + |s.query| <= MAX_COOKIE
    ensures PhaseTimeout(Accept(QueryTimeout(s, first), second), third).phase == EXIT
  {
    QueryTimeoutInv(s, first);
    QueryTimeoutAwake(s, first);
    QueryTimeoutTame(s, first);
    QueryTimeoutFrame(s, first);
    QueryTimeoutDisarms(s, first);
    var t := QueryTimeout(s, first);
    AcceptEndsQuery(t, second);
    PhaseTimeoutEnds(Accept(t, second), third);
  }

  lemma AcceptEndsQuery(s: State, env: Env)
    requires Inv(s) && s.phase >= QUERY_END_SESSION && !Wedged(s) && !Foreign(s)
    requires s.phase > QUERY_END_SESSION || s.queryTimer == 0
    ensures Inv(Accept(s, env)) && Accept(s, env).phase > QUERY_END_SESSION
  {
    AcceptInv(s, env);
    EndPhaseFrame(s.(dialog := None, mode := Force), env);
  }

  lemma PhaseTimeoutEnds(s: State, env: Env)
    requires Inv(s) && s.phase > QUERY_END_SESSION
    ensures PhaseTimeout(s, env).phase == EXIT
  {
    EndPhaseFrame(s.(phaseTimer := 0), env);
  }

  lemma QueryTimeoutDisarms(s: State, env: Env)
    requires Shape(s) && s.phase == QUERY_END_SESSION
    ensures var t := QueryTimeout(s, env); t.phase > QUERY_END_SESSION || t.queryTimer == 0
  {
    if s.queryTimer != 0 {
      var t := s.(queryTimer := 0);
      AddJitsFrame(t, t.query, env);
      var u := (if t.mode == Force then t else AddJits(t, t.query, env)).(query := []);
      EndPhaseFrame(u.(queryTimer := 0), env);
    }
  }

  function PhaseTimeouts(s: State, envs: seq<Env>): State
    decreases |envs|
  {
    if envs == [] then s else PhaseTimeouts(PhaseTimeout(s, envs[0]), envs[1..])
  }

  /** With applications that never show up, one phase timeout per phase brings the session up. */
  lemma {:induction false} SilentStartupEnds(s: State, envs: seq<Env>)
    requires Inv(s) && INITIALIZATION <= s.phase <= RUNNING && |envs| >= RUNNING - s.phase
    ensures PhaseTimeouts(s, envs).phase == RUNNING
    decreases |envs|
  {
    if envs != [] {
      PhaseTimeoutInv(s, envs[0]);
      EndPhaseFrame(s.(phaseTimer := 0), envs[0]);
      SilentStartupEnds(PhaseTimeout(s, envs[0]), envs[1..]);
    }
  }
}
