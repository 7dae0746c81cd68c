/** What is true of the session manager between any two events, on every run. */
module SessionInvariant {
  import opened Wrappers
  import opened Session
  import opened CookieSupply
  import P = Presence

  // ----- the invariant -----

  predicate Edge(p: Phase, q: Phase) {
    q == p + 1 || (p >= QUERY_END_SESSION && q == RUNNING)
  }

  predicate AtEnd(trail: seq<Phase>, p: Phase) {
    if trail == [] then p == STARTUP else trail[|trail| - 1] == p
  }

  predicate MayEnter(trail: seq<Phase>, p: Phase) {
    if trail == [] then p == INITIALIZATION else Edge(trail[|trail| - 1], p)
  }

  /** Phases are entered one after the other, and only a logout can be taken back. */
  predicate IsPath(trail: seq<Phase>) {
    trail == [] || (IsPath(trail[..|trail| - 1]) && MayEnter(trail[..|trail| - 1], trail[|trail| - 1]))
  }

  /** A just-in-time inhibitor blocks logout, and carries the bus name of its client. */
  predicate JitShape(inh: Inhibitor, clients: map<ClientId, Client>, nextClient: ClientId) {
    inh.client.Some? ==>
      && inh.flags == {FlagLogout}
      && inh.client.value < nextClient
      && (inh.client.value in clients ==> clients[inh.client.value].bus == inh.bus)
  }

  predicate DialogMirrors(dialog: Option<Dialog>, inhibitors: map<InhibitorId, Inhibitor>) {
    dialog.Some? ==> inhibitors != map[] && dialog.value.rows == inhibitors.Keys
  }

  /** Identifiers come from a counter; cookies are in range and all different. */
  predicate InhibitorsOk(inhibitors: map<InhibitorId, Inhibitor>, nextInhibitor: InhibitorId) {
    && (forall i | i in inhibitors :: i < nextInhibitor)
    && (forall i | i in inhibitors :: 1 <= inhibitors[i].cookie <= MAX_COOKIE)
    && (forall i, j | i in inhibitors && j in inhibitors && i != j :: inhibitors[i].cookie != inhibitors[j].cookie)
  }

  predicate JitsOk(inhibitors: map<InhibitorId, Inhibitor>, clients: map<ClientId, Client>, nextClient: ClientId) {
    forall i | i in inhibitors :: JitShape(inhibitors[i], clients, nextClient)
  }

  /** No two clients share a startup id, and a client on the bus has one. */
  predicate ClientsOk(clients: map<ClientId, Client>, nextClient: ClientId) {
    && (forall c | c in clients :: c < nextClient && (clients[c].bus.Some? ==> clients[c].startupId != ""))
    && (forall c, d | c in clients && d in clients && c != d && clients[c].startupId != "" ::
          clients[c].startupId != clients[d].startupId)
  }

  /** The session never quits without knowing how it is to end. */
  predicate QuitsNamed(log: seq<Message>) {
    forall m | m in log :: m.Quit? ==> m.ending != NoEnding
  }

  /** The facts that no change of phase touches. */
  predicate Core(s: State) {
    && DialogMirrors(s.dialog, s.inhibitors)
    && InhibitorsOk(s.inhibitors, s.nextInhibitor)
    && JitsOk(s.inhibitors, s.clients, s.nextClient)
    && ClientsOk(s.clients, s.nextClient)
    && P.Valid(s.presence)
    && IsPath(s.trail)
    && QuitsNamed(s.log)
  }

  predicate IdleAgrees(s: State) {
    s.presence.enabled == !Inhibited(s.inhibitors, FlagIdle)
  }

  predicate NoJits(inhibitors: map<InhibitorId, Inhibitor>) {
    forall i | i in inhibitors :: !IsJit(inhibitors[i])
  }

  predicate DialogInPhase(s: State) {
    s.dialog.Some? && EndsSession(s.dialog.value.action) ==> s.phase >= QUERY_END_SESSION
  }

  /** What waits for what, phase by phase. */
  predicate Shape(s: State) {
    && s.phase != APPLICATION
    && (INITIALIZATION <= s.phase <= DESKTOP <==> s.pending != {})
    && (INITIALIZATION <= s.phase <= DESKTOP || s.phase == END_SESSION <==> s.phaseTimer != 0)
    && (s.queryTimer != 0 ==> s.phase == QUERY_END_SESSION)
    && (s.query != [] ==> s.queryTimer != 0 || s.phase == END_SESSION)
    && (s.next != [] ==> s.phase == END_SESSION)
  }

  /** Every listed client was once connected. */
  predicate Listed(list: seq<ClientId>, nextClient: ClientId) {
    forall k | 0 <= k < |list| :: list[k] < nextClient
  }

  /** Everything but the shape, which some handlers leave open for a moment. */
  predicate Settled(s: State) {
    && Core(s)
    && AtEnd(s.trail, s.phase)
    && DialogInPhase(s)
    && Listed(s.query, s.nextClient)
    && Listed(s.next, s.nextClient)
    && (s.phase < QUERY_END_SESSION ==> s.mode == Normal && NoJits(s.inhibitors))
    && (s.phase >= QUERY_END_SESSION ==> s.ending != NoEnding)
    && (s.phase >= RUNNING ==> IdleAgrees(s))
    && (s.phase == EXIT ==> Quit(s.ending) in s.log)
  }

  predicate Inv(s: State) {
    Settled(s) && Shape(s)
  }

  // ----- what changes of phase leave alone -----

  /** Only phases, lists, timers, the idle watch and the log may differ. */
  predicate SameStores(s: State, t: State) {
    && t.mode == s.mode && t.ending == s.ending && t.dialog == s.dialog
    && t.clients == s.clients && t.nextClient == s.nextClient
    && t.inhibitors == s.inhibitors && t.nextInhibitor == s.nextInhibitor
    && t.apps == s.apps
  }

  lemma BeginFrame(s: State, env: Env)
    ensures SameStores(s, Begin(s, env)) && Begin(s, env).phase == s.phase
  {
    if s.phase <= APPLICATION {
    } else if s.phase == RUNNING {
    } else if s.phase == QUERY_END_SESSION {
    } else if s.phase == END_SESSION {
    }
  }

  /** Starting a phase goes forward, at most to the next resting place, and does not touch the stores. */
  lemma {:induction false} StartPhaseFrame(s: State, env: Env)
    ensures var t := StartPhase(s, env);
            && SameStores(s, t)
            && s.phase <= t.phase
            && (s.phase <= RUNNING ==> t.phase <= RUNNING)
    decreases EXIT - s.phase, 1
  {
    BeginFrame(s, env);
    if GoesOn(Begin(s, env)) {
      EndPhaseFrame(Begin(s, env), env);
    }
  }

  lemma {:induction false} EndPhaseFrame(s: State, env: Env)
    ensures var t := EndPhase(s, env);
            && SameStores(s, t)
            && (if Stays(s, env) then t.phase == s.phase else t.phase > s.phase)
            && (s.phase < RUNNING ==> t.phase <= RUNNING)
    decreases EXIT - s.phase, 0
  {
    if !Stays(s, env) {
      StartPhaseFrame(Advance(Finish(s, env)), env);
    }
  }

  lemma UpdateIdleOk(s: State)
    requires P.Valid(s.presence)
    ensures P.Valid(UpdateIdle(s).presence) && IdleAgrees(UpdateIdle(s))
    ensures UpdateIdle(s) == s.(presence := UpdateIdle(s).presence)
  {
    P.NextValid(s.presence, P.Enable(!Inhibited(s.inhibitors, FlagIdle)));
  }

  // ----- phases keep the invariant -----

  /** What must hold when a phase is about to start. */
  predicate MayStart(s: State) {
    && Core(s)
    && MayEnter(s.trail, s.phase)
    && DialogInPhase(s)
    && (s.phase < QUERY_END_SESSION ==> s.mode == Normal && NoJits(s.inhibitors))
    && (s.phase >= QUERY_END_SESSION ==> s.ending != NoEnding)
    && (s.phase > RUNNING ==> IdleAgrees(s))
  }

  /** What must hold when a phase is about to end. */
  predicate MayEnd(s: State, env: Env) {
    && Core(s)
    && s.trail != [] && AtEnd(s.trail, s.phase)
    && DialogInPhase(s)
    && (s.phase < QUERY_END_SESSION ==> NoJits(s.inhibitors))
    && (s.phase < RUNNING || (s.phase == RUNNING && env.lockedDown) ==> s.mode == Normal)
    && (s.phase >= QUERY_END_SESSION || (s.phase == RUNNING && !env.lockedDown) ==> s.ending != NoEnding)
    && (s.phase >= RUNNING ==> IdleAgrees(s))
    && (s.phase == RUNNING || s.phase == EXIT ==> s.queryTimer == 0)
  }

  lemma {:induction false} PrependedMembers(order: seq<ClientId>, keep: set<ClientId>)
    ensures forall c :: c in Prepended(order, keep) <==> c in order && c in keep
    ensures |Prepended(order, keep)| <= |order|
  {
    if order != [] {
      var k := |order| - 1;
      PrependedMembers(order[..k], keep);
      assert order == order[..k] + [order[k]];
    }
  }

  lemma PrependedListed(order: seq<ClientId>, keep: set<ClientId>, n: ClientId)
    requires (forall c | c in keep :: c < n) || Listed(order, n)
    ensures Listed(Prepended(order, keep), n)
  {
    PrependedMembers(order, keep);
    forall k | 0 <= k < |Prepended(order, keep)|
      ensures Prepended(order, keep)[k] < n
    {
      assert Prepended(order, keep)[k] in Prepended(order, keep);
    }
  }

  lemma {:induction false} NoticesAreSends(order: seq<ClientId>, keep: set<ClientId>, n: Notice)
    ensures forall m :: m in Notices(order, keep, n) <==> m.Send? && m.to in order && m.to in keep && m.notice == n
  {
    if order != [] {
      var k := |order| - 1;
      NoticesAreSends(order[..k], keep, n);
      assert order == order[..k] + [order[k]];
    }
  }

  lemma QuitsNamedAfter(log: seq<Message>, order: seq<ClientId>, keep: set<ClientId>, n: Notice)
    requires QuitsNamed(log)
    ensures QuitsNamed(log + Notices(order, keep, n))
  {
    NoticesAreSends(order, keep, n);
  }

  lemma BeginInv(s: State, env: Env)
    requires MayStart(s)
    ensures var t := Begin(s, env); if GoesOn(t) then MayEnd(t, env) else Inv(t)
  {
    var t := Reset(s);
    assert t.trail[..|t.trail| - 1] == s.trail;
    if t.phase <= APPLICATION {
    } else if t.phase == RUNNING {
      UpdateIdleOk(t);
    } else if t.phase == QUERY_END_SESSION {
      PrependedListed(env.order, s.clients.Keys * env.queryOk, s.nextClient);
      QuitsNamedAfter(s.log, env.order, s.clients.Keys * env.queryOk, AskQuery(s.mode == Force));
    } else if t.phase == END_SESSION {
      PrependedListed(env.order, s.clients.Keys * env.endOk, s.nextClient);
      QuitsNamedAfter(s.log, env.order, s.clients.Keys * env.endOk, AskEnd(s.mode == Force, env.autoSave, false));
    } else {
      QuitsNamedAfter(s.log, env.order, s.clients.Keys, TellStop);
    }
  }

  lemma FinishInv(s: State, env: Env)
    requires MayEnd(s, env)
    ensures var t := Finish(s, env);
            && SameStores(s, t) && t.phase == s.phase
            && (if Stays(s, env) then Inv(t) else MayStart(Advance(t)))
  {
  }

  lemma {:induction false} StartPhaseInv(s: State, env: Env)
    requires MayStart(s)
    ensures Inv(StartPhase(s, env))
    decreases EXIT - s.phase, 1
  {
    BeginInv(s, env);
    if GoesOn(Begin(s, env)) {
      EndPhaseInv(Begin(s, env), env);
    }
  }

  lemma {:induction false} EndPhaseInv(s: State, env: Env)
    requires MayEnd(s, env)
    ensures Inv(EndPhase(s, env))
    decreases EXIT - s.phase, 0
  {
    FinishInv(s, env);
    if !Stays(s, env) {
      StartPhaseInv(Advance(Finish(s, env)), env);
    }
  }

  // ----- every handler keeps the invariant -----

  /** Ending a phase of a logout. */
  lemma LogoutPhaseInv(s: State, env: Env)
    requires Settled(s) && s.phase >= QUERY_END_SESSION && (s.phase == EXIT ==> s.queryTimer == 0)
    ensures Inv(EndPhase(s, env))
  {
    EndPhaseInv(s, env);
  }

  lemma AddedOk(s: State, inh: Inhibitor)
    requires InhibitorsOk(s.inhibitors, s.nextInhibitor) && JitsOk(s.inhibitors, s.clients, s.nextClient)
    requires 1 <= inh.cookie <= MAX_COOKIE && inh.cookie !in Cookies(s.inhibitors)
    requires JitShape(inh, s.clients, s.nextClient)
    ensures var inhibitors := s.inhibitors[s.nextInhibitor := inh];
            && InhibitorsOk(inhibitors, s.nextInhibitor + 1) && JitsOk(inhibitors, s.clients, s.nextClient)
            && inhibitors.Keys == s.inhibitors.Keys + {s.nextInhibitor}
  {
    forall i | i in s.inhibitors
      ensures s.inhibitors[i].cookie in Cookies(s.inhibitors)
    {
    }
  }

  lemma AddInhibitorSettled(s: State, inh: Inhibitor)
    requires Settled(s)
    requires 1 <= inh.cookie <= MAX_COOKIE && inh.cookie !in Cookies(s.inhibitors)
    requires JitShape(inh, s.clients, s.nextClient) && (IsJit(inh) ==> s.phase >= QUERY_END_SESSION)
    ensures Settled(AddInhibitor(s, inh))
  {
    AddedOk(s, inh);
    UpdateIdleOk(s.(inhibitors := s.inhibitors[s.nextInhibitor := inh]));
    assert NoJits(s.inhibitors) && !IsJit(inh) ==> NoJits(AddInhibitor(s, inh).inhibitors);
  }

  lemma AddJitSettled(s: State, c: ClientId, env: Env)
    requires Settled(s) && s.phase >= QUERY_END_SESSION && c < s.nextClient
    requires Fair(env.random) && |s.inhibitors| < MAX_COOKIE
    ensures Settled(AddJit(s, c, env))
    ensures |AddJit(s, c, env).inhibitors| == |s.inhibitors| + 1
    ensures var t := AddJit(s, c, env);
            t == s.(inhibitors := t.inhibitors, nextInhibitor := t.nextInhibitor, dialog := t.dialog, presence := t.presence)
  {
    CookiesSize(s.inhibitors);
    FreshCookieIsFresh(env.random, Cookies(s.inhibitors));
    AddInhibitorSettled(s, Inhibitor(Some(c), {FlagLogout}, BusOf(s, c), FreshCookie(env.random, Cookies(s.inhibitors))));
  }

  lemma {:induction false} AddJitsSettled(s: State, list: seq<ClientId>, env: Env)
    requires Settled(s) && s.phase >= QUERY_END_SESSION && Listed(list, s.nextClient)
    requires Fair(env.random) && |s.inhibitors| + |list| <= MAX_COOKIE
    ensures Settled(AddJits(s, list, env))
    ensures |AddJits(s, list, env).inhibitors| == |s.inhibitors| + |list|
    ensures var t := AddJits(s, list, env);
            t == s.(inhibitors := t.inhibitors, nextInhibitor := t.nextInhibitor, dialog := t.dialog, presence := t.presence)
  {
    if list != [] {
      AddJitsSettled(s, list[..|list| - 1], env);
      AddJitSettled(AddJits(s, list[..|list| - 1], env), list[|list| - 1], env);
    }
  }

  lemma RemoveInhibitorsInv(s: State, gone: set<InhibitorId>, env: Env)
    requires Inv(s)
    ensures Inv(RemoveInhibitors(s, gone, env))
  {
    if !(gone !! s.inhibitors.Keys) {
      var left := s.inhibitors - gone;
      var t := Without(s, gone);
      UpdateIdleOk(s.(inhibitors := left));
      if t.dialog.Some? && t.dialog.value.rows == {} {
        AcceptInv(t, env);
      } else {
        assert t.dialog.Some? ==> left.Keys != {};
      }
    }
  }

  /** Accepting needs no agreement between the dialog's rows and the store. */
  lemma AcceptInv(s: State, env: Env)
    requires Inv(s.(dialog := None)) && DialogInPhase(s)
    ensures Inv(Accept(s, env))
  {
    if s.dialog.Some? && EndsSession(s.dialog.value.action) {
      LogoutPhaseInv(s.(dialog := None, mode := Force), env);
    }
  }

  lemma WithdrawnMayStart(s: State, env: Env)
    requires Inv(s) && s.phase >= QUERY_END_SESSION
    ensures MayStart(Withdrawn(s, env))
  {
    var d := s.(dialog := None);
    var t := RemoveInhibitors(d, Jits(s), env);
    RemoveInhibitorsInv(d, Jits(s), env);
    RemoveInhibitorsFrame(d, Jits(s), env);
    QuitsNamedAfter(t.log, env.order, t.clients.Keys, TellCancel);
  }

  lemma CancelInv(s: State, env: Env)
    requires Inv(s)
    ensures Inv(Cancel(s, env))
  {
    if s.phase >= QUERY_END_SESSION {
      WithdrawnMayStart(s, env);
      StartPhaseInv(Withdrawn(s, env), env);
    }
  }

  lemma QueryCompleteInv(s: State, env: Env)
    requires Settled(s) && Shape(s.(queryTimer := 0)) && s.phase == QUERY_END_SESSION
    ensures Inv(QueryComplete(s, env))
  {
    var t := s.(queryTimer := 0);
    if !Inhibited(t.inhibitors, FlagLogout) {
      LogoutPhaseInv(t, env);
    }
  }

  lemma AfterAnswerInv(s: State, c: ClientId, last: bool, env: Env)
    requires Inv(s) && c < s.nextClient
    ensures Inv(AfterAnswer(s, c, last, env))
  {
    if s.phase == QUERY_END_SESSION && s.query == [] {
      QueryCompleteInv(s, env);
    } else if s.phase == END_SESSION {
      var t := if last then s.(next := [c] + s.next) else s;
      if t.query == [] && !Inhibited(t.inhibitors, FlagLogout) {
        if t.next == [] {
          LogoutPhaseInv(t, env);
        } else {
          PrependedListed(t.next, env.lastOk, t.nextClient);
          QuitsNamedAfter(t.log, t.next, env.lastOk, AskEnd(t.mode == Force, env.autoSave, true));
        }
      }
    }
  }

  lemma {:induction false} RemoveFirstWithin(list: seq<ClientId>, c: ClientId)
    ensures forall x | x in RemoveFirst(list, c) :: x in list
    ensures |RemoveFirst(list, c)| == if c in list then |list| - 1 else |list|
    ensures forall x | x in list && x != c :: x in RemoveFirst(list, c)
  {
    if list != [] && list[0] != c {
      RemoveFirstWithin(list[1..], c);
      assert list == [list[0]] + list[1..];
    } else if list != [] {
      assert list == [list[0]] + list[1..];
    }
  }

  lemma QueryShrinksInv(s: State, c: ClientId)
    requires Inv(s)
    ensures Inv(s.(query := RemoveFirst(s.query, c)))
  {
    RemoveFirstWithin(s.query, c);
    forall k | 0 <= k < |RemoveFirst(s.query, c)|
      ensures RemoveFirst(s.query, c)[k] < s.nextClient
    {
      assert RemoveFirst(s.query, c)[k] in s.query;
    }
  }

  lemma AnswerInv(s: State, c: ClientId, ok: bool, last: bool, cancel: bool, env: Env)
    requires Inv(s) && c < s.nextClient
    requires !ok ==> Fair(env.random) && |s.inhibitors| < MAX_COOKIE
    ensures Inv(Answer(s, c, ok, last, cancel, env))
  {
    if s.phase < QUERY_END_SESSION {
    } else if cancel {
      CancelInv(s, env);
    } else {
      QueryShrinksInv(s, c);
      var t := s.(query := RemoveFirst(s.query, c));
      if !ok && t.mode != Force {
        AddJitSettled(t, c, env);
        AfterAnswerInv(AddJit(t, c, env), c, last, env);
      } else {
        RemoveInhibitorsInv(t, JitsOf(t, c), env);
        RemoveInhibitorsFrame(t, JitsOf(t, c), env);
        AfterAnswerInv(RemoveInhibitors(t, JitsOf(t, c), env), c, last, env);
      }
    }
  }

  lemma QueryTimeoutInv(s: State, env: Env)
    requires Inv(s) && Fair(env.random) && |s.inhibitors| + |s.query| <= MAX_COOKIE
    ensures Inv(QueryTimeout(s, env))
  {
    if s.queryTimer != 0 {
      var t := s.(queryTimer := 0);
      if t.mode == Force {
        QueryCompleteInv(t.(query := []), env);
      } else {
        AddJitsSettled(t, t.query, env);
        QueryCompleteInv(AddJits(t, t.query, env).(query := []), env);
      }
    }
  }

  lemma DropInv(s: State, c: ClientId, env: Env)
    requires Inv(s) && c < s.nextClient
    ensures Inv(Drop(s, c, env))
  {
    RemoveInhibitorsInv(s, JitsOf(s, c), env);
    RemoveInhibitorsFrame(s, JitsOf(s, c), env);
    var t := RemoveInhibitors(s, JitsOf(s, c), env);
    if t.phase == QUERY_END_SESSION {
      AnswerInv(t, c, true, false, false, env);
    }
    var u := Disconnect(s, c, env);
    assert JitsOk(u.inhibitors, u.clients - {c}, u.nextClient);
  }

  /** Registration data never changes while inhibitors go. */
  lemma RemoveInhibitorsFrame(s: State, gone: set<InhibitorId>, env: Env)
    ensures var t := RemoveInhibitors(s, gone, env);
            && t.clients == s.clients && t.nextClient == s.nextClient && t.apps == s.apps && t.ending == s.ending
            && t.inhibitors == s.inhibitors - gone && t.nextInhibitor == s.nextInhibitor
  {
    assert s.inhibitors - gone == s.inhibitors || !(gone !! s.inhibitors.Keys);
    var t := Without(s, gone);
    EndPhaseFrame(t.(dialog := None, mode := Force), env);
  }

  lemma {:induction false} DropAllInv(s: State, list: seq<ClientId>, name: Option<string>, env: Env)
    requires Inv(s)
    ensures Inv(DropAll(s, list, name, env))
  {
    if list != [] {
      DropAllInv(s, list[..|list| - 1], name, env);
      var t := DropAll(s, list[..|list| - 1], name, env);
      var c := list[|list| - 1];
      if c in t.clients && t.clients[c].bus.Some? && (name.None? || t.clients[c].bus == name) {
        DropInv(t, c, env);
      }
    }
  }

  lemma ExitIfEmptyInv(s: State, env: Env)
    requires Inv(s)
    ensures Inv(ExitIfEmpty(s, env))
  {
    if s.phase >= QUERY_END_SESSION && s.clients == map[] {
      LogoutPhaseInv(s, env);
    }
  }

  lemma AppSignalInv(s: State, a: App, env: Env)
    requires Inv(s)
    ensures Inv(AppSignal(s, a, env))
    ensures SameStores(s, AppSignal(s, a, env)) && (s.phase <= RUNNING ==> AppSignal(s, a, env).phase <= RUNNING)
  {
    if a in s.pending {
      var t := s.(pending := s.pending - {a});
      if t.pending == {} {
        EndPhaseInv(t.(phaseTimer := 0), env);
        EndPhaseFrame(t.(phaseTimer := 0), env);
      }
    }
  }

  lemma SetClientInv(s: State, c: ClientId, client: Client)
    requires Inv(s) && c < s.nextClient
    requires c in s.clients ==> client.bus == s.clients[c].bus
    requires c !in s.clients ==> forall i | i in s.inhibitors :: s.inhibitors[i].client != Some(c)
    requires client.startupId != "" ==> forall d | d in s.clients && d != c :: s.clients[d].startupId != client.startupId
    requires client.bus.Some? ==> client.startupId != ""
    ensures Inv(s.(clients := s.clients[c := client]))
  {
    var clients := s.clients[c := client];
    assert ClientsOk(clients, s.nextClient);
    assert JitsOk(s.inhibitors, clients, s.nextClient);
  }

  lemma AddClientInv(s: State, client: Client)
    requires Inv(s) && (if client.startupId != "" then !Taken(s, client.startupId) else client.bus.None?)
    ensures Inv(AddClient(s, client))
  {
    SetClientInv(s.(nextClient := s.nextClient + 1), s.nextClient, client);
  }

  lemma RegisterXsmpInv(s: State, c: ClientId, previous: string, app: Option<App>, env: Env)
    requires Inv(s) && !Taken(s, env.generated)
    ensures Inv(RegisterXsmp(s, c, previous, app, env))
  {
    if c in s.clients && s.clients[c].bus.None? && s.phase < QUERY_END_SESSION {
      if previous == "" {
        SetClientInv(s, c, s.clients[c].(startupId := env.generated, watched := true));
      } else if !Taken(s, previous) {
        if app.None? {
          SetClientInv(s, c, s.clients[c].(watched := true));
        } else {
          AppSignalInv(s, app.value, env);
          SetClientInv(AppSignal(s, app.value, env), c,
                       s.clients[c].(startupId := previous, watched := true, appId := AppIdOr(s, app, "")));
        }
      }
    }
  }

  lemma RegisterDBusInv(s: State, startupId: string, appId: string, bus: string, app: Option<App>, env: Env)
    requires Inv(s) && env.generated != "" && !Taken(s, env.generated)
    ensures Inv(RegisterDBus(s, startupId, appId, bus, app, env))
  {
    if s.phase < QUERY_END_SESSION && !(startupId != "" && Taken(s, startupId)) {
      var client := Client(Some(bus), if startupId == "" then env.generated else startupId, AppIdOr(s, app, appId), false);
      AddClientInv(s, client);
      if app.Some? {
        AppSignalInv(AddClient(s, client), app.value, env);
      }
    }
  }

  lemma ClientGoneInv(s: State, c: ClientId, env: Env)
    requires Inv(s)
    ensures Inv(ClientGone(s, c, env))
  {
    if c in s.clients && s.clients[c].bus.None? && s.clients[c].watched {
      DropInv(s, c, env);
      ExitIfEmptyInv(Drop(s, c, env), env);
    }
  }

  lemma BusNameLostInv(s: State, name: string, env: Env)
    requires Inv(s)
    ensures Inv(BusNameLost(s, name, env))
  {
    if name != "" {
      var t := RemoveInhibitors(s, OnBus(s, name), env);
      RemoveInhibitorsInv(s, OnBus(s, name), env);
      DropAllInv(t, env.order, Some(name), env);
      ExitIfEmptyInv(DropAll(t, env.order, Some(name), env), env);
    }
  }

  lemma BusLostInv(s: State, env: Env)
    requires Inv(s)
    ensures Inv(BusLost(s, env))
  {
    DropAllInv(s, env.order, None, env);
    ExitIfEmptyInv(DropAll(s, env.order, None, env), env);
  }

  lemma InhibitInv(s: State, appId: string, reason: string, flags: set<Flag>, bus: string, env: Env)
    requires Inv(s) && Fair(env.random) && |s.inhibitors| < MAX_COOKIE
    ensures Inv(Inhibit(s, appId, reason, flags, bus, env))
  {
    CookiesSize(s.inhibitors);
    FreshCookieIsFresh(env.random, Cookies(s.inhibitors));
    AddInhibitorSettled(s, Inhibitor(None, flags, Some(bus), FreshCookie(env.random, Cookies(s.inhibitors))));
  }

  lemma RequestLogoutInv(s: State, mode: Mode, env: Env)
    requires Inv(s)
    ensures Inv(RequestLogout(s, mode, env))
  {
    if s.phase == RUNNING && !env.lockedDown {
      EndPhaseInv(s.(mode := mode, ending := Logout), env);
    }
  }

  lemma RequestHaltInv(s: State, ending: Ending, env: Env)
    requires Inv(s)
    ensures Inv(RequestHalt(s, ending, env))
  {
    if s.phase == RUNNING && ending != NoEnding && ending != Logout {
      EndPhaseInv(s.(ending := ending), env);
    }
  }

  lemma OpenDialogSettled(s: State, a: Action)
    requires Settled(s) && s.inhibitors != map[] && (EndsSession(a) ==> s.phase >= QUERY_END_SESSION)
    ensures Settled(s.(dialog := Some(Dialog(a, s.inhibitors.Keys))))
  {
  }

  lemma RequestSleepInv(s: State, a: Action, env: Env)
    requires Inv(s)
    ensures Inv(RequestSleep(s, a, env))
  {
    if EndsSession(a) || (a == ActSwitchUser && env.switchLocked) {
    } else if !Inhibited(s.inhibitors, FlagFor(a)) {
    } else if s.dialog.None? {
      OpenDialogSettled(s, a);
    }
  }

  lemma PresenceInv(s: State, e: P.PresenceEvent)
    requires Inv(s) && !e.Enable?
    ensures Inv(s.(presence := P.Next(s.presence, e)))
  {
    P.NextValid(s.presence, e);
  }

  lemma PhaseTimeoutInv(s: State, env: Env)
    requires Inv(s)
    ensures Inv(PhaseTimeout(s, env))
  {
    if s.phaseTimer != 0 {
      EndPhaseInv(s.(phaseTimer := 0), env);
    }
  }

  lemma LeaveEventInv(s: State, e: Event, env: Env)
    requires Inv(s) && (e.EvClientGone? || e.EvBusNameLost? || e.EvBusLost?)
    ensures Inv(ClientStep(s, e, env))
  {
    match e
    case EvClientGone(c) => ClientGoneInv(s, c, env);
    case EvBusNameLost(name) => BusNameLostInv(s, name, env);
    case EvBusLost => BusLostInv(s, env);
    case _ =>
  }

  lemma JoinEventInv(s: State, e: Event, env: Env)
    requires Inv(s) && env.generated != "" && !Taken(s, env.generated)
    requires e.EvConnect? || e.EvRegisterXsmp? || e.EvRegisterDBus?
    ensures Inv(ClientStep(s, e, env))
  {
    match e
    case EvConnect => AddClientInv(s, Client(None, "", "", false));
    case EvRegisterXsmp(c, previous, app) => RegisterXsmpInv(s, c, previous, app, env);
    case EvRegisterDBus(startupId, appId, bus, app) => RegisterDBusInv(s, startupId, appId, bus, app, env);
    case _ =>
  }

  lemma SpeakEventInv(s: State, e: Event, env: Env)
    requires Inv(s) && Fair(env.random) && |s.inhibitors| < MAX_COOKIE && (e.EvAnswer? || e.EvInhibit? || e.EvUninhibit?)
    ensures Inv(ClientStep(s, e, env))
  {
    match e
    case EvAnswer(c, ok, last, cancel) => if c in s.clients { AnswerInv(s, c, ok, last, cancel, env); }
    case EvInhibit(appId, reason, flags, bus) => InhibitInv(s, appId, reason, flags, bus, env);
    case EvUninhibit(cookie) => RemoveInhibitorsInv(s, WithCookie(s, cookie), env);
    case _ =>
  }

  lemma ClientEventInv(s: State, e: Event, env: Env)
    requires Inv(s) && Possible(s, e, env) && FromClient(e)
    ensures Inv(ClientStep(s, e, env))
  {
    if e.EvClientGone? || e.EvBusNameLost? || e.EvBusLost? {
      LeaveEventInv(s, e, env);
    } else if e.EvConnect? || e.EvRegisterXsmp? || e.EvRegisterDBus? {
      JoinEventInv(s, e, env);
    } else {
      SpeakEventInv(s, e, env);
    }
  }

  lemma StartInv(s: State, env: Env)
    requires Inv(s)
    ensures Inv(Start(s, env))
  {
    if s.phase == STARTUP {
      StartPhaseInv(s.(phase := INITIALIZATION), env);
    }
  }

  /** The events that can end a phase. */
  predicate EndsPhases(e: Event) {
    e.EvStart? || e.EvAppSignal? || e.EvPhaseTimeout? || e.EvQueryTimeout? || e.EvLogout? || e.EvHalt?
  }

  lemma PhaseEventInv(s: State, e: Event, env: Env)
    requires Inv(s) && Fair(env.random) && |s.inhibitors| + |s.query| <= MAX_COOKIE && EndsPhases(e)
    ensures Inv(OwnStep(s, e, env))
  {
    match e
    case EvStart => StartInv(s, env);
    case EvAppSignal(a) => AppSignalInv(s, a, env);
    case EvPhaseTimeout => PhaseTimeoutInv(s, env);
    case EvQueryTimeout => QueryTimeoutInv(s, env);
    case EvLogout(mode) => RequestLogoutInv(s, mode, env);
    case EvHalt(ending) => RequestHaltInv(s, ending, env);
    case _ =>
  }

  lemma DialogEventInv(s: State, e: Event, env: Env)
    requires Inv(s) && (e.EvSleep? || e.EvAccept? || e.EvDecline? || e.EvPresence?)
    ensures Inv(OwnStep(s, e, env))
  {
    match e
    case EvSleep(a) => RequestSleepInv(s, a, env);
    case EvAccept => AcceptInv(s, env);
    case EvDecline => CancelInv(s.(dialog := None), env);
    case EvPresence(pe) => if !pe.Enable? { PresenceInv(s, pe); }
    case _ =>
  }

  lemma OwnEventInv(s: State, e: Event, env: Env)
    requires Inv(s) && Possible(s, e, env) && !FromClient(e)
    ensures Inv(OwnStep(s, e, env))
  {
    if EndsPhases(e) {
      PhaseEventInv(s, e, env);
    } else {
      DialogEventInv(s, e, env);
    }
  }

  /** One event, whatever it is, keeps the invariant. */
  lemma StepInv(s: State, e: Event, env: Env)
    requires Inv(s) && Possible(s, e, env)
    ensures Inv(Step(s, e, env))
  {
    if FromClient(e) {
      ClientEventInv(s, e, env);
    } else {
      OwnEventInv(s, e, env);
    }
  }

  lemma InitialInv(apps: map<App, AppInfo>, idleCounter: bool)
    ensures Inv(Initial(apps, idleCounter))
  {
  }

  /** Every state reached by any run satisfies the invariant. */
  lemma {:induction false} RunInv(apps: map<App, AppInfo>, idleCounter: bool, es: seq<(Event, Env)>)
    requires PossibleRun(Initial(apps, idleCounter), es)
    ensures Inv(Run(Initial(apps, idleCounter), es))
  {
    if es == [] {
      InitialInv(apps, idleCounter);
    } else {
      RunInv(apps, idleCounter, es[..|es| - 1]);
      StepInv(Run(Initial(apps, idleCounter), es[..|es| - 1]), es[|es| - 1].0, es[|es| - 1].1);
    }
  }
}
