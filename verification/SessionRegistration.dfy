/**
 Clients are filed under the startup ids they were told: a returning client
 under the one it named, a new one under one of its own, on every run.
 */
module SessionRegistration {
  import opened Wrappers
  import opened Session
  import opened SessionInvariant
  import opened SessionFrames
  import opened SessionStartup

  // ----- one registration -----

  /** Only this client's entry may differ. */
  predicate OthersSame(s: State, t: State, c: ClientId) {
    t.clients.Keys == s.clients.Keys && forall d | d in s.clients && d != c :: t.clients[d] == s.clients[d]
  }

  /** What an XSMP client is told is what it is filed under; a refused one stays as it was, but for being watched. */
  lemma XsmpFiledAsTold(s: State, c: ClientId, previous: string, app: Option<App>, env: Env)
    requires c in s.clients && s.clients[c].bus.None?
    ensures var t := RegisterXsmp(s, c, previous, app, env);
            var id := XsmpReply(s, previous, app, env);
            && OthersSame(s, t, c)
            && (id.Some? ==> t.clients[c].startupId == id.value && t.clients[c].watched && t.clients[c].bus.None?)
            && (id.Some? && previous != "" ==> id.value == previous && app.Some?)
            && (id.Some? && previous != "" && app.value in s.apps ==> t.clients[c].appId == s.apps[app.value].appId)
            && (id.Some? && previous == "" ==> t.clients[c].appId == s.clients[c].appId)
            && (id.None? ==> t.clients[c] == s.clients[c].(watched := t.clients[c].watched))
  {
    if app.Some? {
      AppSignalFrame(s, app.value, env);
    }
  }

  /** Its application, or that of a D-Bus client, is not waited for any more. */
  lemma RegisteredNotAwaited(s: State, e: Event, env: Env)
    requires Inv(s) && PendingOk(s) && (e.EvRegisterXsmp? || e.EvRegisterDBus?)
    ensures forall a | a in Signals(s, e) :: a !in Step(s, e, env).pending
  {
    forall a | a in Signals(s, e)
      ensures a !in Step(s, e, env).pending
    {
      if e.EvRegisterXsmp? {
        SignalledNotAwaited(s, a, env);
      } else {
        var id := if e.startupId == "" then env.generated else e.startupId;
        SignalledNotAwaited(AddClient(s, Client(Some(e.bus), id, AppIdOr(s, e.found, e.appId), false)), a, env);
      }
    }
  }

  /** A D-Bus client is filed under the id it named, or a generated one, with its bus name and application. */
  lemma DBusFiledAsNamed(s: State, startupId: string, appId: string, bus: string, app: Option<App>, env: Env)
    requires Inv(s) && Accepted(s, EvRegisterDBus(startupId, appId, bus, app))
    ensures var t := RegisterDBus(s, startupId, appId, bus, app, env);
            var c := s.nextClient;
            && c !in s.clients && t.nextClient == c + 1 && t.clients.Keys == s.clients.Keys + {c} && OthersSame(t, t, c)
            && (forall d | d in s.clients :: t.clients[d] == s.clients[d])
            && t.clients[c].bus == Some(bus)
            && t.clients[c].startupId == (if startupId != "" then startupId else env.generated)
            && t.clients[c].appId == (if app.Some? && app.value in s.apps then s.apps[app.value].appId else appId)
  {
    var id := if startupId == "" then env.generated else startupId;
    var u := AddClient(s, Client(Some(bus), id, AppIdOr(s, app, appId), false));
    if app.Some? {
      AppSignalFrame(u, app.value, env);
    }
  }

  // ----- whole runs -----

  /** The ids that clients were told, or named, when they were accepted. */
  function NoteId(note: map<ClientId, string>, s: State, e: Event, env: Env): map<ClientId, string> {
    match e
    case EvRegisterXsmp(c, previous, app) =>
      if c in s.clients && s.clients[c].bus.None? && XsmpReply(s, previous, app, env).Some?
      then note[c := XsmpReply(s, previous, app, env).value] else note
    case EvRegisterDBus(startupId, _, _, _) =>
      if Accepted(s, e) then note[s.nextClient := if startupId != "" then startupId else env.generated] else note
    case _ => note
  }

  ghost function IdsTold(s: State, es: seq<(Event, Env)>): map<ClientId, string> {
    if es == [] then map[]
    else NoteId(IdsTold(s, es[..|es| - 1]), Run(s, es[..|es| - 1]), es[|es| - 1].0, es[|es| - 1].1)
  }

  /** Every client is filed under the id it was told last, and one that was told none has none. */
  predicate Filed(note: map<ClientId, string>, s: State) {
    && (forall c | c in note :: c < s.nextClient && note[c] != "")
    && (forall c | c in s.clients :: s.clients[c].startupId == if c in note then note[c] else "")
  }

  /** No client is added or changed. */
  predicate ClientsOnlyGo(s: State, t: State) {
    && t.nextClient == s.nextClient
    && forall c | c in t.clients :: c in s.clients && t.clients[c] == s.clients[c]
  }

  lemma PhaseEventClients(s: State, e: Event, env: Env)
    requires EndsPhases(e)
    ensures ClientsOnlyGo(s, OwnStep(s, e, env))
  {
    match e
    case EvStart => StartPhaseFrame(s.(phase := INITIALIZATION), env);
    case EvAppSignal(a) => AppSignalFrame(s, a, env);
    case EvPhaseTimeout => EndPhaseFrame(s.(phaseTimer := 0), env);
    case EvQueryTimeout => TimeoutClients(s, env);
    case EvLogout(mode) => EndPhaseFrame(s.(mode := mode, ending := Logout), env);
    case EvHalt(ending) => EndPhaseFrame(s.(ending := ending), env);
    case _ =>
  }

  lemma OwnClients(s: State, e: Event, env: Env)
    requires !FromClient(e)
    ensures ClientsOnlyGo(s, OwnStep(s, e, env))
  {
    if EndsPhases(e) {
      PhaseEventClients(s, e, env);
    } else if e.EvAccept? {
      EndPhaseFrame(s.(dialog := None, mode := Force), env);
    } else if e.EvDecline? {
      CancelClients(s.(dialog := None), env);
    }
  }

  lemma TimeoutClients(s: State, env: Env)
    ensures ClientsOnlyGo(s, QueryTimeout(s, env))
  {
    var t := s.(queryTimer := 0);
    AddJitsFrame(t, t.query, env);
    var u := (if t.mode == Force then t else AddJits(t, t.query, env)).(query := []);
    EndPhaseFrame(u.(queryTimer := 0), env);
  }

  lemma CancelClients(s: State, env: Env)
    ensures ClientsOnlyGo(s, Cancel(s, env))
  {
    if s.phase >= QUERY_END_SESSION {
      CancelResult(s, env);
      RemoveInhibitorsFrame(s.(dialog := None), Jits(s), env);
    }
  }

  lemma AnswerClients(s: State, c: ClientId, ok: bool, last: bool, cancel: bool, env: Env)
    ensures ClientsOnlyGo(s, Answer(s, c, ok, last, cancel, env))
  {
    if cancel {
      CancelClients(s, env);
    } else if s.phase >= QUERY_END_SESSION {
      var t := s.(query := RemoveFirst(s.query, c));
      RemoveInhibitorsFrame(t, JitsOf(t, c), env);
      var u := if !ok && t.mode != Force then AddJit(t, c, env) else RemoveInhibitors(t, JitsOf(t, c), env);
      AfterAnswerFrame(u, c, last, env);
    }
  }

  lemma ClientEventClients(s: State, e: Event, env: Env)
    requires FromClient(e) && !e.EvConnect? && !e.EvRegisterXsmp? && !e.EvRegisterDBus?
    ensures ClientsOnlyGo(s, ClientStep(s, e, env))
  {
    match e
    case EvAnswer(c, ok, last, cancel) => AnswerClients(s, c, ok, last, cancel, env);
    case EvUninhibit(cookie) => RemoveInhibitorsFrame(s, WithCookie(s, cookie), env);
    case EvInhibit(_, _, _, _) =>
    case _ => DisconnectionOnward(s, e, env);
  }

  lemma OneFiled(note: map<ClientId, string>, s: State, t: State, c: ClientId, id: string)
    requires Filed(note, s) && c in s.clients && c < s.nextClient && id != ""
    requires OthersSame(s, t, c) && t.nextClient == s.nextClient && t.clients[c].startupId == id
    ensures Filed(note[c := id], t)
  {
  }

  lemma NoneFiled(note: map<ClientId, string>, s: State, t: State)
    requires Filed(note, s) && t.nextClient == s.nextClient
    requires forall c | c in t.clients :: c in s.clients && t.clients[c].startupId == s.clients[c].startupId
    ensures Filed(note, t)
  {
  }

  lemma XsmpCounts(s: State, c: ClientId, previous: string, app: Option<App>, env: Env)
    ensures RegisterXsmp(s, c, previous, app, env).nextClient == s.nextClient
  {
    if app.Some? {
      AppSignalFrame(s, app.value, env);
    }
  }

  lemma XsmpNoted(note: map<ClientId, string>, s: State, e: Event, env: Env)
    requires Inv(s) && Filed(note, s) && e.EvRegisterXsmp? && env.generated != ""
    ensures Filed(NoteId(note, s, e, env), RegisterXsmp(s, e.client, e.previous, e.found, env))
  {
    var t, id := RegisterXsmp(s, e.client, e.previous, e.found, env), XsmpReply(s, e.previous, e.found, env);
    if e.client in s.clients && s.clients[e.client].bus.None? {
      XsmpFiledAsTold(s, e.client, e.previous, e.found, env);
      XsmpCounts(s, e.client, e.previous, e.found, env);
      if id.Some? {
        OneFiled(note, s, t, e.client, id.value);
      } else {
        NoneFiled(note, s, t);
      }
    }
  }

  lemma DBusNoted(note: map<ClientId, string>, s: State, e: Event, env: Env)
    requires Inv(s) && Filed(note, s) && e.EvRegisterDBus? && env.generated != ""
    ensures Filed(NoteId(note, s, e, env), RegisterDBus(s, e.startupId, e.appId, e.bus, e.found, env))
  {
    if Accepted(s, e) {
      DBusFiledAsNamed(s, e.startupId, e.appId, e.bus, e.found, env);
    }
  }

  lemma FiledStep(note: map<ClientId, string>, s: State, e: Event, env: Env)
    requires Inv(s) && Filed(note, s) && env.generated != ""
    ensures Filed(NoteId(note, s, e, env), Step(s, e, env))
  {
    if e.EvRegisterXsmp? {
      XsmpNoted(note, s, e, env);
    } else if e.EvRegisterDBus? {
      DBusNoted(note, s, e, env);
    } else if FromClient(e) {
      if !e.EvConnect? {
        ClientEventClients(s, e, env);
      }
    } else {
      OwnClients(s, e, env);
      NoneFiled(note, s, Step(s, e, env));
    }
  }

  /** On every run: a client has the startup id it was told, or named, when it was last accepted, and no other. */
  lemma {:induction false} FiledOverRuns(apps: map<App, AppInfo>, idleCounter: bool, es: seq<(Event, Env)>)
    requires PossibleRun(Initial(apps, idleCounter), es)
    ensures Filed(IdsTold(Initial(apps, idleCounter), es), Run(Initial(apps, idleCounter), es))
  {
    if es != [] {
      var s := Initial(apps, idleCounter);
      var before := es[..|es| - 1];
      FiledOverRuns(apps, idleCounter, before);
      RunInv(apps, idleCounter, before);
      FiledStep(IdsTold(s, before), Run(s, before), es[|es| - 1].0, es[|es| - 1].1);
    }
  }
}
