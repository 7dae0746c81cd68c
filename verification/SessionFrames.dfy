/** How far each handler of the session manager can reach: which parts it changes, and in which direction. */
module SessionFrames {
  import opened Wrappers
  import opened Session
  import opened SessionInvariant

  lemma AfterAnswerFrame(s: State, c: ClientId, last: bool, env: Env)
    ensures var t := AfterAnswer(s, c, last, env);
            && t.clients == s.clients && t.inhibitors == s.inhibitors && t.mode == s.mode && t.phase >= s.phase
            && t.nextClient == s.nextClient && t.nextInhibitor == s.nextInhibitor
  {
    if s.phase == QUERY_END_SESSION && s.query == [] {
      EndPhaseFrame(s.(queryTimer := 0), env);
    } else if s.phase == END_SESSION {
      var t := if last then s.(next := [c] + s.next) else s;
      if t.query == [] && !Inhibited(t.inhibitors, FlagLogout) && t.next == [] {
        EndPhaseFrame(t, env);
      }
    }
  }

  /** Removing these inhibitors empties an inhibit dialog that stands in the way of the logout. */
  predicate Forces(s: State, gone: set<InhibitorId>) {
    && s.dialog.Some? && EndsSession(s.dialog.value.action)
    && !(gone !! s.inhibitors.Keys) && s.dialog.value.rows - gone == {}
  }

  lemma RemoveInhibitorsPhase(s: State, gone: set<InhibitorId>, env: Env)
    ensures var t := RemoveInhibitors(s, gone, env);
            if Forces(s, gone) then
              && t.mode == Force && t.phase >= s.phase
              && (s.phase < EXIT && !(s.phase == RUNNING && env.lockedDown) ==> t.phase > s.phase)
            else
              t == s.(inhibitors := t.inhibitors, presence := t.presence, dialog := t.dialog, log := t.log)
  {
    if Forces(s, gone) {
      EndPhaseFrame(Without(s, gone).(dialog := None, mode := Force), env);
    } else if gone !! s.inhibitors.Keys {
    } else {
      assert s.dialog.Some? && EndsSession(s.dialog.value.action) ==> s.dialog.value.rows - gone != {};
    }
  }

  /** Under force every answer counts as agreement and nothing is put in its way. */
  lemma ForcedAnswer(s: State, c: ClientId, ok: bool, last: bool, env: Env)
    requires s.mode == Force && s.phase >= QUERY_END_SESSION
    ensures Answer(s, c, ok, last, false, env) == Answer(s, c, true, last, false, env)
    ensures Answer(s, c, ok, last, false, env).mode == Force
  {
    var t := s.(query := RemoveFirst(s.query, c));
    RemoveInhibitorsPhase(t, JitsOf(t, c), env);
    AfterAnswerFrame(RemoveInhibitors(t, JitsOf(t, c), env), c, last, env);
  }

  /** Inhibitors and clients only go, phases only advance, and force stays. */
  predicate Onward(s: State, t: State) {
    && t.phase >= s.phase
    && (s.mode == Force ==> t.mode == Force)
    && (t.mode == s.mode || t.mode == Force)
    && t.inhibitors == s.inhibitors - (s.inhibitors.Keys - t.inhibitors.Keys)
    && t.clients == s.clients - (s.clients.Keys - t.clients.Keys)
    && t.nextClient == s.nextClient
  }

  lemma AgreementFrame(s: State, c: ClientId, last: bool, env: Env)
    ensures var t := Answer(s, c, true, last, false, env);
            Onward(s, t) && t.clients == s.clients
  {
    if s.phase >= QUERY_END_SESSION {
      var t := s.(query := RemoveFirst(s.query, c));
      RemoveInhibitorsPhase(t, JitsOf(t, c), env);
      RemoveInhibitorsFrame(t, JitsOf(t, c), env);
      AfterAnswerFrame(RemoveInhibitors(t, JitsOf(t, c), env), c, last, env);
    }
  }

  lemma DropFrame(s: State, c: ClientId, env: Env)
    ensures Onward(s, Drop(s, c, env)) && Drop(s, c, env).clients == s.clients - {c}
  {
    var t := RemoveInhibitors(s, JitsOf(s, c), env);
    RemoveInhibitorsPhase(s, JitsOf(s, c), env);
    RemoveInhibitorsFrame(s, JitsOf(s, c), env);
    AgreementFrame(t, c, false, env);
    var u := Drop(s, c, env);
    assert u.inhibitors == s.inhibitors - (s.inhibitors.Keys - u.inhibitors.Keys);
  }

  lemma OnwardTransitive(s: State, t: State, u: State)
    requires Onward(s, t) && Onward(t, u)
    ensures Onward(s, u)
  {
    assert u.inhibitors == s.inhibitors - (s.inhibitors.Keys - u.inhibitors.Keys);
    assert u.clients == s.clients - (s.clients.Keys - u.clients.Keys);
  }

  /** Between any two events, phases move on, or a logout is taken back. */
  predicate PhaseMoves(p: Phase, q: Phase) {
    p <= q || (p >= QUERY_END_SESSION && q == RUNNING)
  }

  lemma CancelResult(s: State, env: Env)
    requires s.phase >= QUERY_END_SESSION
    ensures Cancel(s, env) == UpdateIdle(Reset(Withdrawn(s, env)))
    ensures Cancel(s, env).clients == s.clients && Cancel(s, env).phase == RUNNING
  {
    RemoveInhibitorsFrame(s.(dialog := None), Jits(s), env);
  }

  lemma AnswerPhase(s: State, c: ClientId, ok: bool, last: bool, cancel: bool, env: Env)
    ensures var t := Answer(s, c, ok, last, cancel, env);
            t.clients == s.clients && PhaseMoves(s.phase, t.phase)
            && (s.phase < QUERY_END_SESSION ==> t == s) && (!cancel ==> t.phase >= s.phase)
            && (cancel && s.phase >= QUERY_END_SESSION ==> t.phase == RUNNING)
  {
    if s.phase < QUERY_END_SESSION {
    } else if cancel {
      CancelResult(s, env);
    } else if !ok && s.mode != Force {
      var t := s.(query := RemoveFirst(s.query, c));
      AfterAnswerFrame(AddJit(t, c, env), c, last, env);
    } else {
      AgreementFrame(s, c, last, env);
      if !ok {
        ForcedAnswer(s, c, ok, last, env);
      }
    }
  }

  lemma {:induction false} DropAllOnward(s: State, list: seq<ClientId>, name: Option<string>, env: Env)
    ensures Onward(s, DropAll(s, list, name, env))
  {
    if list == [] {
      assert s.inhibitors == s.inhibitors - (s.inhibitors.Keys - s.inhibitors.Keys);
      assert s.clients == s.clients - (s.clients.Keys - s.clients.Keys);
    } else {
      var t := DropAll(s, list[..|list| - 1], name, env);
      DropAllOnward(s, list[..|list| - 1], name, env);
      DropFrame(t, list[|list| - 1], env);
      OnwardTransitive(s, t, DropAll(s, list, name, env)) by {
        assert t.inhibitors == t.inhibitors - (t.inhibitors.Keys - t.inhibitors.Keys);
        assert t.clients == t.clients - (t.clients.Keys - t.clients.Keys);
      }
    }
  }

  lemma DisconnectionOnward(s: State, e: Event, env: Env)
    requires e.EvClientGone? || e.EvBusNameLost? || e.EvBusLost?
    ensures Onward(s, ClientStep(s, e, env))
  {
    OnwardSelf(s);
    match e
    case EvClientGone(c) =>
      if c in s.clients && s.clients[c].bus.None? && s.clients[c].watched {
        DropFrame(s, c, env);
        ExitIfEmptyOnward(s, Drop(s, c, env), env);
      }
    case EvBusNameLost(name) =>
      if name != "" {
        var t := RemoveInhibitors(s, OnBus(s, name), env);
        RemoveInhibitorsOnward(s, OnBus(s, name), env);
        DropAllOnward(t, env.order, Some(name), env);
        OnwardTransitive(s, t, DropAll(t, env.order, Some(name), env));
        ExitIfEmptyOnward(s, DropAll(t, env.order, Some(name), env), env);
      }
    case EvBusLost =>
      DropAllOnward(s, env.order, None, env);
      ExitIfEmptyOnward(s, DropAll(s, env.order, None, env), env);
    case _ =>
  }

  lemma OnwardSelf(s: State)
    ensures Onward(s, s)
  {
    assert s.inhibitors == s.inhibitors - (s.inhibitors.Keys - s.inhibitors.Keys);
    assert s.clients == s.clients - (s.clients.Keys - s.clients.Keys);
  }

  lemma RemoveInhibitorsOnward(s: State, gone: set<InhibitorId>, env: Env)
    ensures Onward(s, RemoveInhibitors(s, gone, env))
  {
    RemoveInhibitorsFrame(s, gone, env);
    RemoveInhibitorsPhase(s, gone, env);
    OnwardSelf(s);
    var t := RemoveInhibitors(s, gone, env);
    assert t.inhibitors == s.inhibitors - (s.inhibitors.Keys - t.inhibitors.Keys);
  }

  lemma ExitIfEmptyOnward(s: State, t: State, env: Env)
    requires Onward(s, t)
    ensures Onward(s, ExitIfEmpty(t, env))
  {
    EndPhaseFrame(t, env);
  }

  lemma QueryTimeoutFrame(s: State, env: Env)
    ensures var t := QueryTimeout(s, env); t.clients == s.clients && t.phase >= s.phase && t.mode == s.mode
  {
    if s.queryTimer != 0 {
      var t := s.(queryTimer := 0);
      AddJitsFrame(t, t.query, env);
      var u := (if t.mode == Force then t else AddJits(t, t.query, env)).(query := []);
      EndPhaseFrame(u.(queryTimer := 0), env);
    }
  }

  lemma {:induction false} AddJitsFrame(s: State, list: seq<ClientId>, env: Env)
    ensures var t := AddJits(s, list, env);
            t == s.(inhibitors := t.inhibitors, nextInhibitor := t.nextInhibitor, dialog := t.dialog, presence := t.presence)
  {
    if list != [] {
      AddJitsFrame(s, list[..|list| - 1], env);
    }
  }

  lemma RegisterXsmpFrame(s: State, c: ClientId, previous: string, app: Option<App>, env: Env)
    ensures var t := RegisterXsmp(s, c, previous, app, env);
            && t.phase >= s.phase && (s.phase < RUNNING ==> t.phase <= RUNNING)
            && t.mode == s.mode && t.inhibitors == s.inhibitors
            && (s.phase >= QUERY_END_SESSION ==> t == s)
            && t.clients.Keys == s.clients.Keys
  {
    if app.Some? {
      AppSignalFrame(s, app.value, env);
    }
  }

  lemma RegisterDBusFrame(s: State, startupId: string, appId: string, bus: string, app: Option<App>, env: Env)
    ensures var t := RegisterDBus(s, startupId, appId, bus, app, env);
            && t.phase >= s.phase && (s.phase < RUNNING ==> t.phase <= RUNNING)
            && t.mode == s.mode && t.inhibitors == s.inhibitors
            && (s.phase >= QUERY_END_SESSION ==> t == s)
  {
    var id := if startupId == "" then env.generated else startupId;
    if app.Some? {
      AppSignalFrame(AddClient(s, Client(Some(bus), id, AppIdOr(s, app, appId), false)), app.value, env);
    }
  }

  lemma AppSignalFrame(s: State, a: App, env: Env)
    ensures var t := AppSignal(s, a, env);
            && SameStores(s, t) && t.phase >= s.phase && (s.phase < RUNNING ==> t.phase <= RUNNING)
            && (s.pending == {} ==> t == s)
  {
    EndPhaseFrame(s.(pending := s.pending - {a}, phaseTimer := 0), env);
  }

  /** Outside a logout, removing inhibitors and dropping clients leaves the phase alone. */
  lemma RemovalPhase(s: State, gone: set<InhibitorId>, env: Env)
    requires Inv(s)
    ensures RemoveInhibitors(s, gone, env).phase >= s.phase
    ensures s.phase < QUERY_END_SESSION ==> RemoveInhibitors(s, gone, env).phase == s.phase
  {
    RemoveInhibitorsPhase(s, gone, env);
  }

  lemma {:induction false} DropAllPhase(s: State, list: seq<ClientId>, name: Option<string>, env: Env)
    requires Inv(s) && s.phase < QUERY_END_SESSION
    ensures DropAll(s, list, name, env).phase == s.phase
  {
    if list != [] {
      var t := DropAll(s, list[..|list| - 1], name, env);
      DropAllPhase(s, list[..|list| - 1], name, env);
      DropAllInv(s, list[..|list| - 1], name, env);
      RemovalPhase(t, JitsOf(t, list[|list| - 1]), env);
    }
  }

  lemma DisconnectionPhase(s: State, e: Event, env: Env)
    requires Inv(s) && (e.EvClientGone? || e.EvBusNameLost? || e.EvBusLost?)
    ensures ClientStep(s, e, env).phase >= s.phase
    ensures s.phase < QUERY_END_SESSION ==> ClientStep(s, e, env).phase == s.phase
  {
    DisconnectionOnward(s, e, env);
    if s.phase < QUERY_END_SESSION {
      match e
      case EvClientGone(c) => RemovalPhase(s, JitsOf(s, c), env);
      case EvBusNameLost(name) =>
        RemovalPhase(s, OnBus(s, name), env);
        RemoveInhibitorsInv(s, OnBus(s, name), env);
        DropAllPhase(RemoveInhibitors(s, OnBus(s, name), env), env.order, Some(name), env);
      case EvBusLost => DropAllPhase(s, env.order, None, env);
      case _ =>
    }
  }

  lemma ClientEventPhase(s: State, e: Event, env: Env)
    requires Inv(s)
    ensures var t := ClientStep(s, e, env);
            && PhaseMoves(s.phase, t.phase)
            && (s.phase <= RUNNING ==> t.phase <= RUNNING)
  {
    match e
    case EvAnswer(c, ok, last, cancel) => AnswerPhase(s, c, ok, last, cancel, env);
    case EvClientGone(_) => DisconnectionPhase(s, e, env);
    case EvBusNameLost(_) => DisconnectionPhase(s, e, env);
    case EvBusLost => DisconnectionPhase(s, e, env);
    case EvUninhibit(cookie) => RemovalPhase(s, WithCookie(s, cookie), env);
    case EvRegisterXsmp(c, previous, app) => RegisterXsmpFrame(s, c, previous, app, env);
    case EvRegisterDBus(startupId, appId, bus, app) => RegisterDBusFrame(s, startupId, appId, bus, app, env);
    case _ =>
  }

  /** An event that moves the phase onward, out of startup only as far as the running phase. */
  predicate Forward(s: State, t: State) {
    PhaseMoves(s.phase, t.phase) && (s.phase < RUNNING ==> t.phase <= RUNNING)
  }

  lemma PhaseEventPhase(s: State, e: Event, env: Env)
    requires Inv(s) && EndsPhases(e)
    ensures var t := OwnStep(s, e, env);
            && Forward(s, t) && (s.phase <= RUNNING < t.phase ==> s.phase == RUNNING && (e.EvLogout? || e.EvHalt?))
  {
    match e
    case EvStart => StartPhaseFrame(s.(phase := INITIALIZATION), env);
    case EvAppSignal(a) => AppSignalFrame(s, a, env);
    case EvPhaseTimeout => EndPhaseFrame(s.(phaseTimer := 0), env);
    case EvQueryTimeout => QueryTimeoutFrame(s, env);
    case EvLogout(mode) => EndPhaseFrame(s.(mode := mode, ending := Logout), env);
    case EvHalt(ending) => EndPhaseFrame(s.(ending := ending), env);
    case _ =>
  }

  lemma DialogEventPhase(s: State, e: Event, env: Env)
    requires Inv(s) && (e.EvAccept? || e.EvDecline? || e.EvSleep? || e.EvPresence?)
    ensures var t := OwnStep(s, e, env);
            && PhaseMoves(s.phase, t.phase) && (s.phase <= RUNNING ==> t.phase == s.phase)
  {
    if e.EvAccept? {
      EndPhaseFrame(s.(dialog := None, mode := Force), env);
    } else if e.EvDecline? && s.phase >= QUERY_END_SESSION {
      CancelResult(s.(dialog := None), env);
    }
  }

  lemma OwnEventPhase(s: State, e: Event, env: Env)
    requires Inv(s) && !FromClient(e)
    ensures var t := OwnStep(s, e, env);
            && Forward(s, t) && (s.phase <= RUNNING < t.phase ==> s.phase == RUNNING && (e.EvLogout? || e.EvHalt?))
  {
    if EndsPhases(e) {
      PhaseEventPhase(s, e, env);
    } else {
      DialogEventPhase(s, e, env);
    }
  }

  /** Which phase an event can lead to; only a logout or halt request starts a query. */
  lemma StepPhase(s: State, e: Event, env: Env)
    requires Inv(s)
    ensures var t := Step(s, e, env);
            && PhaseMoves(s.phase, t.phase)
            && (s.phase < RUNNING ==> t.phase <= RUNNING)
            && (s.phase <= RUNNING < t.phase ==> s.phase == RUNNING && (e.EvLogout? || e.EvHalt?))
  {
    if FromClient(e) {
      ClientEventPhase(s, e, env);
    } else {
      OwnEventPhase(s, e, env);
    }
  }
}
