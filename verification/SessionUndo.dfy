/**
 Taking back a logout undoes it: nothing of it is left but the record, and the
 inhibitors are those from before, changed only by those who own them.
 */
module SessionUndo {
  import opened Wrappers
  import opened Session
  import opened CookieSupply
  import opened SessionInvariant
  import opened SessionFrames
  import P = Presence

  // ----- cancelling -----

  /** The running session that a withdrawn logout leaves behind. */
  predicate Undone(s: State, t: State) {
    && t == s.(phase := RUNNING, pending := {}, query := [], next := [], phaseTimer := 0, queryTimer := 0,
               mode := Normal, ending := NoEnding, dialog := None, inhibitors := s.inhibitors - Jits(s),
               presence := t.presence, log := t.log, trail := s.trail + [RUNNING])
    && NoJits(t.inhibitors) && IdleAgrees(t)
    && s.log <= t.log && (forall c | c in s.clients :: Send(c, TellCancel) in t.log[|s.log|..])
  }

  /** Cancelling from any phase of a logout undoes it, and every client is told. */
  lemma CancelUndoes(s: State, env: Env)
    requires Inv(s) && s.phase >= QUERY_END_SESSION && Walks(env.order, s.clients)
    ensures Undone(s, Cancel(s, env))
  {
    CancelResult(s, env);
    CancelInv(s, env);
    RemoveInhibitorsFrame(s.(dialog := None), Jits(s), env);
    var t := Cancel(s, env);
    NoticesAreSends(env.order, s.clients.Keys, TellCancel);
    assert t.log[|s.log|..] == Notices(env.order, s.clients.Keys, TellCancel);
    if !(Jits(s) !! s.inhibitors.Keys) {
    } else {
      assert s.inhibitors - Jits(s) == s.inhibitors;
    }
  }

  lemma DeclineUndoes(s: State, env: Env)
    requires Inv(s) && s.phase >= QUERY_END_SESSION && Walks(env.order, s.clients)
    requires s.dialog.Some? && EndsSession(s.dialog.value.action)
    ensures Undone(s, Decline(s, env))
  {
    CancelUndoes(s.(dialog := None), env);
    assert Jits(s.(dialog := None)) == Jits(s);
  }

  /** Both ways to take a logout back, by a client and by the user, undo it. */
  lemma EveryCancelUndoes(s: State, e: Event, env: Env)
    requires Inv(s) && Possible(s, e, env) && s.phase >= QUERY_END_SESSION
    requires || (e.EvAnswer? && e.cancel && e.client in s.clients)
             || (e.EvDecline? && s.dialog.Some? && EndsSession(s.dialog.value.action))
    ensures Undone(s, Step(s, e, env))
  {
    if e.EvAnswer? {
      CancelUndoes(s, env);
    } else {
      DeclineUndoes(s, env);
    }
  }

  /** Answers that arrive when no logout is under way, or no longer, change nothing. */
  lemma LateAnswer(s: State, t: State, c: ClientId, ok: bool, last: bool, cancel: bool, env: Env)
    requires Undone(s, t)
    ensures Step(t, EvAnswer(c, ok, last, cancel), env) == t
  {
  }

  // ----- the inhibitors that applications hold -----

  /** The inhibitors made by a call to Inhibit. */
  function Standing(inhibitors: map<InhibitorId, Inhibitor>): map<InhibitorId, Inhibitor> {
    map i | i in inhibitors && inhibitors[i].client.None? :: inhibitors[i]
  }

  predicate SameStanding(s: State, t: State) {
    Standing(t.inhibitors) == Standing(s.inhibitors)
  }

  lemma RemovalStanding(s: State, gone: set<InhibitorId>, env: Env)
    ensures Standing(RemoveInhibitors(s, gone, env).inhibitors) == Standing(s.inhibitors) - gone
  {
    RemoveInhibitorsFrame(s, gone, env);
  }

  lemma JitRemovalStanding(s: State, gone: set<InhibitorId>, env: Env)
    requires forall i | i in gone :: i in s.inhibitors && s.inhibitors[i].client.Some?
    ensures SameStanding(s, RemoveInhibitors(s, gone, env))
  {
    RemoveInhibitorsFrame(s, gone, env);
  }

  lemma AddJitStanding(s: State, c: ClientId, env: Env)
    requires InhibitorsOk(s.inhibitors, s.nextInhibitor)
    ensures SameStanding(s, AddJit(s, c, env))
  {
    assert s.nextInhibitor !in s.inhibitors;
  }

  lemma {:induction false} AddJitsStanding(s: State, list: seq<ClientId>, env: Env)
    requires Settled(s) && s.phase >= QUERY_END_SESSION && Listed(list, s.nextClient)
    requires Fair(env.random) && |s.inhibitors| + |list| <= MAX_COOKIE
    ensures SameStanding(s, AddJits(s, list, env))
  {
    if list != [] {
      AddJitsSettled(s, list[..|list| - 1], env);
      AddJitsStanding(s, list[..|list| - 1], env);
      AddJitStanding(AddJits(s, list[..|list| - 1], env), list[|list| - 1], env);
    }
  }

  lemma AnswerStanding(s: State, c: ClientId, ok: bool, last: bool, cancel: bool, env: Env)
    requires InhibitorsOk(s.inhibitors, s.nextInhibitor)
    ensures SameStanding(s, Answer(s, c, ok, last, cancel, env))
  {
    if s.phase < QUERY_END_SESSION {
    } else if cancel {
      CancelStanding(s, env);
    } else {
      var t := s.(query := RemoveFirst(s.query, c));
      if !ok && t.mode != Force {
        AddJitStanding(t, c, env);
        AfterAnswerFrame(AddJit(t, c, env), c, last, env);
      } else {
        JitRemovalStanding(t, JitsOf(t, c), env);
        AfterAnswerFrame(RemoveInhibitors(t, JitsOf(t, c), env), c, last, env);
      }
    }
  }

  lemma CancelStanding(s: State, env: Env)
    ensures SameStanding(s, Cancel(s, env))
  {
    if s.phase >= QUERY_END_SESSION {
      CancelResult(s, env);
      JitRemovalStanding(s.(dialog := None), Jits(s), env);
    }
  }

  lemma DropStanding(s: State, c: ClientId, env: Env)
    requires InhibitorsOk(s.inhibitors, s.nextInhibitor)
    ensures SameStanding(s, Drop(s, c, env))
  {
    var t := RemoveInhibitors(s, JitsOf(s, c), env);
    JitRemovalStanding(s, JitsOf(s, c), env);
    RemoveInhibitorsFrame(s, JitsOf(s, c), env);
    AnswerStanding(t, c, true, false, false, env);
  }

  lemma {:induction false} DropAllStanding(s: State, list: seq<ClientId>, name: Option<string>, env: Env)
    requires Inv(s)
    ensures SameStanding(s, DropAll(s, list, name, env))
  {
    if list != [] {
      DropAllInv(s, list[..|list| - 1], name, env);
      DropAllStanding(s, list[..|list| - 1], name, env);
      DropStanding(DropAll(s, list[..|list| - 1], name, env), list[|list| - 1], env);
    }
  }

  lemma BusNameLostStanding(s: State, name: string, env: Env)
    requires Inv(s) && name != ""
    ensures Standing(BusNameLost(s, name, env).inhibitors) == Standing(s.inhibitors) - OnBus(s, name)
  {
    var t := RemoveInhibitors(s, OnBus(s, name), env);
    RemovalStanding(s, OnBus(s, name), env);
    RemoveInhibitorsInv(s, OnBus(s, name), env);
    DropAllStanding(t, env.order, Some(name), env);
    EndPhaseFrame(DropAll(t, env.order, Some(name), env), env);
  }

  lemma LeaveStanding(s: State, e: Event, env: Env)
    requires Inv(s) && (e.EvClientGone? || e.EvBusLost?)
    ensures SameStanding(s, ClientStep(s, e, env))
  {
    if e.EvClientGone? {
      DropStanding(s, e.client, env);
      EndPhaseFrame(Drop(s, e.client, env), env);
    } else {
      DropAllStanding(s, env.order, None, env);
      EndPhaseFrame(DropAll(s, env.order, None, env), env);
    }
  }

  lemma QueryTimeoutStanding(s: State, env: Env)
    requires Inv(s) && Fair(env.random) && |s.inhibitors| + |s.query| <= MAX_COOKIE
    ensures SameStanding(s, QueryTimeout(s, env))
  {
    if s.queryTimer != 0 {
      var t := s.(queryTimer := 0);
      AddJitsStanding(t, t.query, env);
      var u := (if t.mode == Force then t else AddJits(t, t.query, env)).(query := []);
      EndPhaseFrame(u.(queryTimer := 0), env);
    }
  }

  lemma PhaseEventStanding(s: State, e: Event, env: Env)
    requires EndsPhases(e) && !e.EvQueryTimeout?
    ensures SameStanding(s, OwnStep(s, e, env))
  {
    PhaseEventInhibitors(s, e, env);
  }

  lemma DialogEventStanding(s: State, e: Event, env: Env)
    requires e.EvSleep? || e.EvAccept? || e.EvDecline? || e.EvPresence?
    ensures SameStanding(s, OwnStep(s, e, env))
  {
    if e.EvAccept? {
      EndPhaseFrame(s.(dialog := None, mode := Force), env);
    } else if e.EvDecline? {
      CancelStanding(s.(dialog := None), env);
    }
  }

  lemma OwnStanding(s: State, e: Event, env: Env)
    requires Inv(s) && Possible(s, e, env) && !FromClient(e)
    ensures SameStanding(s, OwnStep(s, e, env))
  {
    if e.EvQueryTimeout? {
      QueryTimeoutStanding(s, env);
    } else if EndsPhases(e) {
      PhaseEventStanding(s, e, env);
    } else {
      DialogEventStanding(s, e, env);
    }
  }

  /** The events by which the owners of inhibitors change them. */
  predicate Owners(e: Event) {
    e.EvInhibit? || e.EvUninhibit? || e.EvBusNameLost?
  }

  lemma JoinStanding(s: State, e: Event, env: Env)
    requires e.EvConnect? || e.EvRegisterXsmp? || e.EvRegisterDBus?
    ensures SameStanding(s, ClientStep(s, e, env))
  {
    match e
    case EvRegisterXsmp(c, previous, app) => RegisterXsmpFrame(s, c, previous, app, env);
    case EvRegisterDBus(startupId, appId, bus, app) => RegisterDBusFrame(s, startupId, appId, bus, app, env);
    case _ =>
  }

  /** Only their owners change the standing inhibitors. */
  lemma StandingStep(s: State, e: Event, env: Env)
    requires Inv(s) && Possible(s, e, env) && !Owners(e)
    ensures SameStanding(s, Step(s, e, env))
  {
    if !FromClient(e) {
      OwnStanding(s, e, env);
    } else if e.EvAnswer? {
      AnswerStanding(s, e.client, e.ok, e.last, e.cancel, env);
    } else if e.EvClientGone? || e.EvBusLost? {
      LeaveStanding(s, e, env);
    } else {
      JoinStanding(s, e, env);
    }
  }

  function OtherCookies(standing: map<InhibitorId, Inhibitor>, cookie: nat): map<InhibitorId, Inhibitor> {
    map i | i in standing && standing[i].cookie != cookie :: standing[i]
  }

  function OtherNames(standing: map<InhibitorId, Inhibitor>, name: string): map<InhibitorId, Inhibitor> {
    map i | i in standing && (name == "" || standing[i].bus != Some(name)) :: standing[i]
  }

  /** And this is how: one more, one less, or all of a bus name that is gone. */
  ghost function Owned(s: State, e: Event, env: Env, standing: map<InhibitorId, Inhibitor>)
    : map<InhibitorId, Inhibitor>
  {
    match e
    case EvInhibit(appId, reason, flags, bus) =>
      if s.mode == Force || appId == "" || reason == "" || flags == {} then standing
      else standing[s.nextInhibitor := Inhibitor(None, flags, Some(bus), FreshCookie(env.random, Cookies(s.inhibitors)))]
    case EvUninhibit(cookie) => OtherCookies(standing, cookie)
    case EvBusNameLost(name) => OtherNames(standing, name)
    case _ => standing
  }

  lemma AddedStanding(s: State, inh: Inhibitor)
    requires inh.client.None?
    ensures Standing(AddInhibitor(s, inh).inhibitors) == Standing(s.inhibitors)[s.nextInhibitor := inh]
  {
  }

  lemma InhibitStanding(s: State, e: Event, env: Env)
    requires e.EvInhibit?
    ensures Standing(Inhibit(s, e.appId, e.reason, e.flags, e.bus, env).inhibitors)
         == Owned(s, e, env, Standing(s.inhibitors))
  {
    AddedStanding(s, Inhibitor(None, e.flags, Some(e.bus), FreshCookie(env.random, Cookies(s.inhibitors))));
  }

  lemma UninhibitStanding(s: State, cookie: nat, env: Env)
    ensures Standing(Uninhibit(s, cookie, env).inhibitors) == OtherCookies(Standing(s.inhibitors), cookie)
  {
    RemovalStanding(s, WithCookie(s, cookie), env);
    assert Standing(s.inhibitors) - WithCookie(s, cookie) == OtherCookies(Standing(s.inhibitors), cookie);
  }

  lemma NameStanding(s: State, name: string, env: Env)
    requires Inv(s)
    ensures Standing(BusNameLost(s, name, env).inhibitors) == OtherNames(Standing(s.inhibitors), name)
  {
    if name != "" {
      BusNameLostStanding(s, name, env);
      assert Standing(s.inhibitors) - OnBus(s, name) == OtherNames(Standing(s.inhibitors), name);
    }
  }

  /** One inhibitor more under a number of its own, the one with the cookie less, or those of the bus name. */
  lemma OwnersStep(s: State, e: Event, env: Env)
    requires Inv(s) && Owners(e)
    ensures Standing(Step(s, e, env).inhibitors) == Owned(s, e, env, Standing(s.inhibitors))
    ensures e.EvInhibit? ==> s.nextInhibitor !in Standing(s.inhibitors)
  {
    match e
    case EvInhibit(_, _, _, _) => InhibitStanding(s, e, env);
    case EvUninhibit(cookie) => UninhibitStanding(s, cookie, env);
    case EvBusNameLost(name) => NameStanding(s, name, env);
    case _ =>
  }

  /** What the owners have asked for and not taken back, on top of what stood before. */
  ghost function Ledger(s: State, es: seq<(Event, Env)>): map<InhibitorId, Inhibitor> {
    if es == [] then Standing(s.inhibitors)
    else
      var before := es[..|es| - 1];
      Owned(Run(s, before), es[|es| - 1].0, es[|es| - 1].1, Ledger(s, before))
  }

  lemma LedgerStep(s: State, e: Event, env: Env)
    requires Inv(s) && Possible(s, e, env)
    ensures Inv(Step(s, e, env)) && Standing(Step(s, e, env).inhibitors) == Owned(s, e, env, Standing(s.inhibitors))
  {
    StepInv(s, e, env);
    if Owners(e) {
      OwnersStep(s, e, env);
    } else {
      StandingStep(s, e, env);
    }
  }

  /** Over any run, logouts and all, the standing inhibitors are what their owners made them. */
  lemma {:induction false} StandingIsLedger(s: State, es: seq<(Event, Env)>)
    requires Inv(s) && PossibleRun(s, es)
    ensures Inv(Run(s, es)) && Standing(Run(s, es).inhibitors) == Ledger(s, es)
  {
    if es != [] {
      var before := es[..|es| - 1];
      StandingIsLedger(s, before);
      LedgerStep(Run(s, before), es[|es| - 1].0, es[|es| - 1].1);
    }
  }

  lemma {:induction false} NobodyAsked(s: State, es: seq<(Event, Env)>)
    requires forall k | 0 <= k < |es| :: !Owners(es[k].0)
    ensures Ledger(s, es) == Standing(s.inhibitors)
  {
    if es != [] {
      NobodyAsked(s, es[..|es| - 1]);
    }
  }

  lemma NoJitsStanding(inhibitors: map<InhibitorId, Inhibitor>)
    requires NoJits(inhibitors)
    ensures Standing(inhibitors) == inhibitors
  {
  }

  /**
   However many logouts were begun and taken back: whenever the session runs,
   its inhibitors are what their owners made them, and those from before if no
   owner did anything.
   */
  lemma LogoutLeavesNoTrace(s: State, es: seq<(Event, Env)>)
    requires Inv(s) && PossibleRun(s, es) && s.phase < QUERY_END_SESSION && Run(s, es).phase < QUERY_END_SESSION
    ensures Run(s, es).inhibitors == Ledger(s, es) && Run(s, es).mode == Normal
    ensures (forall k | 0 <= k < |es| :: !Owners(es[k].0)) ==> Run(s, es).inhibitors == s.inhibitors
  {
    StandingIsLedger(s, es);
    NoJitsStanding(s.inhibitors);
    NoJitsStanding(Run(s, es).inhibitors);
    if forall k | 0 <= k < |es| :: !Owners(es[k].0) {
      NobodyAsked(s, es);
    }
  }

  // ----- inhibiting and taking it back -----

  lemma InhibitAddsOne(s: State, appId: string, reason: string, flags: set<Flag>, bus: string, env: Env)
    requires Inv(s) && Fair(env.random) && |s.inhibitors| < MAX_COOKIE
    requires s.mode != Force && appId != "" && reason != "" && flags != {}
    ensures var t := Inhibit(s, appId, reason, flags, bus, env);
            var id := s.nextInhibitor;
            && id !in s.inhibitors && id in t.inhibitors && t.inhibitors - {id} == s.inhibitors
            && t.inhibitors[id].flags == flags && t.inhibitors[id].cookie !in Cookies(s.inhibitors)
  {
    CookiesSize(s.inhibitors);
    FreshCookieIsFresh(env.random, Cookies(s.inhibitors));
  }

  lemma WithItsCookie(s: State, t: State, id: InhibitorId)
    requires id !in s.inhibitors && id in t.inhibitors && t.inhibitors - {id} == s.inhibitors
    requires t.inhibitors[id].cookie !in Cookies(s.inhibitors)
    ensures WithCookie(t, t.inhibitors[id].cookie) == {id}
  {
    forall i | i in t.inhibitors && i != id
      ensures t.inhibitors[i].cookie != t.inhibitors[id].cookie
    {
      assert i in s.inhibitors && s.inhibitors[i] == t.inhibitors[i];
      assert s.inhibitors[i].cookie in Cookies(s.inhibitors);
    }
  }

  /** One inhibitor more that has nothing to do with idleness does not touch the idle watch. */
  lemma IdleUnaffected(s: State, t: State, id: InhibitorId)
    requires id !in s.inhibitors && id in t.inhibitors && t.inhibitors - {id} == s.inhibitors
    requires FlagIdle !in t.inhibitors[id].flags
    ensures Inhibited(t.inhibitors, FlagIdle) <==> Inhibited(s.inhibitors, FlagIdle)
  {
    if Inhibited(s.inhibitors, FlagIdle) {
      var i :| i in s.inhibitors && FlagIdle in s.inhibitors[i].flags;
      assert t.inhibitors[i] == s.inhibitors[i];
    }
    forall i | i in t.inhibitors && FlagIdle in t.inhibitors[i].flags
      ensures i in s.inhibitors && s.inhibitors[i] == t.inhibitors[i]
    {
      assert i in t.inhibitors - {id};
    }
  }

  lemma RemovingTheNewest(s: State, t: State, id: InhibitorId, env: Env)
    requires Inv(s) && id !in s.inhibitors && id in t.inhibitors && t.inhibitors - {id} == s.inhibitors
    requires t.dialog == if s.dialog.None? then None else Some(s.dialog.value.(rows := s.dialog.value.rows + {id}))
    ensures var u := RemoveInhibitors(t, {id}, env);
            && u == t.(inhibitors := s.inhibitors, dialog := s.dialog, presence := u.presence)
            && u.presence == P.SetEnabled(t.presence, !Inhibited(s.inhibitors, FlagIdle))
  {
    assert !({id} !! t.inhibitors.Keys);
    if s.dialog.Some? {
      assert t.dialog.value.rows - {id} == s.dialog.value.rows;
      assert s.inhibitors.Keys != {};
    }
  }

  /** Uninhibiting with the cookie that Inhibit returned restores the store, the dialog, and everything but two counters. */
  lemma InhibitIsUndone(s: State, appId: string, reason: string, flags: set<Flag>, bus: string, env: Env, later: Env)
    requires Inv(s) && Fair(env.random) && |s.inhibitors| < MAX_COOKIE
    requires s.mode != Force && appId != "" && reason != "" && flags != {}
    ensures var t := Inhibit(s, appId, reason, flags, bus, env);
            && s.nextInhibitor in t.inhibitors
            && (var u := Uninhibit(t, t.inhibitors[s.nextInhibitor].cookie, later);
                && u == s.(nextInhibitor := s.nextInhibitor + 1, presence := u.presence)
                && u.presence.enabled == !Inhibited(s.inhibitors, FlagIdle)
                && (s.phase >= RUNNING && FlagIdle !in flags ==> u.presence == s.presence))
  {
    var id := s.nextInhibitor;
    var t := Inhibit(s, appId, reason, flags, bus, env);
    InhibitAddsOne(s, appId, reason, flags, bus, env);
    WithItsCookie(s, t, id);
    RemovingTheNewest(s, t, id, later);
    UpdateIdleOk(s.(inhibitors := t.inhibitors));
    P.NextValid(t.presence, P.Enable(!Inhibited(s.inhibitors, FlagIdle)));
    if s.phase >= RUNNING && FlagIdle !in flags {
      IdleUnaffected(s, t, id);
    }
  }

  // ----- force -----

  /** While a logout is forced, and when it becomes so, no inhibitor appears. */
  predicate OnlyFewer(s: State, t: State) {
    t.inhibitors == s.inhibitors - (s.inhibitors.Keys - t.inhibitors.Keys)
  }

  lemma FewerSelf(s: State, t: State)
    requires t.inhibitors == s.inhibitors
    ensures OnlyFewer(s, t)
  {
    assert s.inhibitors == s.inhibitors - (s.inhibitors.Keys - s.inhibitors.Keys);
  }

  lemma ForcedAnswerFewer(s: State, c: ClientId, ok: bool, last: bool, cancel: bool, env: Env)
    requires s.mode == Force
    ensures OnlyFewer(s, Answer(s, c, ok, last, cancel, env))
  {
    FewerSelf(s, s);
    if s.phase < QUERY_END_SESSION {
    } else if cancel {
      CancelResult(s, env);
      RemoveInhibitorsFrame(s.(dialog := None), Jits(s), env);
      FewerWithout(s, Cancel(s, env), Jits(s));
    } else {
      ForcedAnswer(s, c, ok, last, env);
      AgreementFrame(s, c, last, env);
    }
  }

  lemma FewerWithout(s: State, t: State, gone: set<InhibitorId>)
    requires t.inhibitors == s.inhibitors - gone
    ensures OnlyFewer(s, t)
  {
    assert s.inhibitors - gone == s.inhibitors - (s.inhibitors.Keys - (s.inhibitors - gone).Keys);
  }

  lemma ForcedClientStep(s: State, e: Event, env: Env)
    requires s.mode == Force && FromClient(e)
    ensures OnlyFewer(s, ClientStep(s, e, env))
  {
    FewerSelf(s, s);
    if e.EvAnswer? {
      ForcedAnswerFewer(s, e.client, e.ok, e.last, e.cancel, env);
    } else if e.EvClientGone? || e.EvBusNameLost? || e.EvBusLost? {
      DisconnectionOnward(s, e, env);
    } else if e.EvUninhibit? {
      RemoveInhibitorsOnward(s, WithCookie(s, e.cookie), env);
    } else if e.EvConnect? || e.EvRegisterXsmp? || e.EvRegisterDBus? {
      JoinFewer(s, e, env);
    }
  }

  lemma JoinFewer(s: State, e: Event, env: Env)
    requires e.EvConnect? || e.EvRegisterXsmp? || e.EvRegisterDBus?
    ensures OnlyFewer(s, ClientStep(s, e, env))
  {
    FewerSelf(s, s);
    match e
    case EvRegisterXsmp(c, previous, app) => RegisterXsmpFrame(s, c, previous, app, env);
    case EvRegisterDBus(startupId, appId, bus, app) => RegisterDBusFrame(s, startupId, appId, bus, app, env);
    case _ =>
  }

  lemma PhaseEventFewer(s: State, e: Event, env: Env)
    requires EndsPhases(e) && (s.mode == Force || !e.EvQueryTimeout?)
    ensures OnlyFewer(s, OwnStep(s, e, env))
  {
    FewerSelf(s, s);
    if e.EvQueryTimeout? {
      EndPhaseFrame(s.(query := [], queryTimer := 0), env);
    } else {
      PhaseEventInhibitors(s, e, env);
      FewerSelf(s, OwnStep(s, e, env));
    }
  }

  lemma PhaseEventInhibitors(s: State, e: Event, env: Env)
    requires EndsPhases(e) && !e.EvQueryTimeout?
    ensures OwnStep(s, e, env).inhibitors == s.inhibitors
  {
    match e
    case EvStart => StartPhaseFrame(s.(phase := INITIALIZATION), env);
    case EvAppSignal(a) => AppSignalFrame(s, a, env);
    case EvPhaseTimeout => EndPhaseFrame(s.(phaseTimer := 0), env);
    case EvLogout(mode) => EndPhaseFrame(s.(mode := mode, ending := Logout), env);
    case EvHalt(ending) => EndPhaseFrame(s.(ending := ending), env);
    case _ =>
  }

  lemma DialogEventFewer(s: State, e: Event, env: Env)
    requires e.EvSleep? || e.EvAccept? || e.EvDecline? || e.EvPresence?
    ensures OnlyFewer(s, OwnStep(s, e, env))
  {
    FewerSelf(s, s);
    if e.EvAccept? {
      EndPhaseFrame(s.(dialog := None, mode := Force), env);
    } else if e.EvDecline? && s.phase >= QUERY_END_SESSION {
      var d := s.(dialog := None);
      CancelResult(d, env);
      RemoveInhibitorsFrame(d, Jits(d), env);
      FewerWithout(s, Cancel(d, env), Jits(d));
    }
  }

  /** While the mode is force the inhibitors never grow, and force is only ever found in a logout. */
  lemma ForceNeverInhibited(s: State, e: Event, env: Env)
    requires Inv(s) && s.mode == Force
    ensures s.phase >= QUERY_END_SESSION && OnlyFewer(s, Step(s, e, env))
  {
    if FromClient(e) {
      ForcedClientStep(s, e, env);
    } else if EndsPhases(e) {
      PhaseEventFewer(s, e, env);
    } else {
      DialogEventFewer(s, e, env);
    }
  }
}
