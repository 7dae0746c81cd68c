/**
 Who is sent what. Each event is seen with the messages it adds to the log: a
 logout asks every client that can be reached, its end tells them to go, the
 exit saves where that is wanted, stops everybody and quits as was requested.
 */
module SessionMessages {
  import opened Wrappers
  import opened Session
  import opened SessionInvariant
  import opened SessionFrames
  import opened SessionRounds

  // ----- walks send each message once -----

  lemma {:induction false} NoticesOnce(order: seq<ClientId>, keep: set<ClientId>, n: Notice)
    requires NoDuplicates(order)
    ensures NoDuplicates(Notices(order, keep, n))
  {
    if order != [] {
      var k := |order| - 1;
      NoticesOnce(order[..k], keep, n);
      NoticesAreSends(order[..k], keep, n);
      assert order[k] !in order[..k];
    }
  }

  lemma {:induction false} PrependedOnce(order: seq<ClientId>, keep: set<ClientId>)
    requires NoDuplicates(order)
    ensures NoDuplicates(Prepended(order, keep))
  {
    if order != [] {
      var k := |order| - 1;
      PrependedOnce(order[..k], keep);
      PrependedMembers(order[..k], keep);
      assert order[k] !in order[..k];
    }
  }

  /** These clients, and no others, were sent this notice, each once, and nothing else was sent. */
  predicate SentTo(messages: seq<Message>, to: set<ClientId>, n: Notice) {
    && NoDuplicates(messages)
    && (forall m | m in messages :: m.Send? && m.notice == n && m.to in to)
    && (forall c | c in to :: Send(c, n) in messages)
  }

  lemma WalkSends(order: seq<ClientId>, clients: map<ClientId, Client>, keep: set<ClientId>, n: Notice)
    requires Walks(order, clients) && keep <= clients.Keys
    ensures SentTo(Notices(order, keep, n), keep, n)
  {
    NoticesOnce(order, keep, n);
    NoticesAreSends(order, keep, n);
  }

  // ----- within a logout -----

  /** Why a message was sent, between two states of a logout. */
  predicate Fitting(s: State, t: State, m: Message, env: Env) {
    match m
    case SaveSession => s.phase < EXIT == t.phase && env.autoSave && !env.loginWindow
    case Quit(ending) => t.phase == EXIT && ending == t.ending
    case Perform(a) =>
      !EndsSession(a) && s.dialog.Some? && s.dialog.value.action == a && !(a == ActSwitchUser && env.switchLocked)
    case Send(c, AskEnd(forced, save, last)) =>
      && save == env.autoSave
      && (if last then c in env.lastOk && t.phase >= END_SESSION
          else s.phase < END_SESSION <= t.phase && c in s.clients && c in env.endOk)
      && (forced ==> t.mode == Force) && (s.mode == Force ==> forced)
      && (t.phase == END_SESSION ==> forced == (t.mode == Force))
    case Send(c, TellStop) => s.phase < EXIT == t.phase && c in s.clients
    case Send(_, _) => false
  }

  /** And who has been told by then. */
  predicate Complete(s: State, t: State, env: Env)
    requires s.log <= t.log
  {
    && (s.phase < END_SESSION == t.phase ==>
          forall c | c in t.clients && c in env.endOk :: Send(c, AskEnd(t.mode == Force, env.autoSave, false)) in New(s, t))
    && (s.phase < EXIT == t.phase ==>
          && Quit(t.ending) in New(s, t)
          && (env.autoSave && !env.loginWindow ==> SaveSession in New(s, t))
          && (forall c | c in t.clients :: Send(c, TellStop) in New(s, t)))
  }

  /** The same thing said twice to the same client, or done twice. */
  predicate Repeats(m: Message, n: Message) {
    || (m.SaveSession? && n.SaveSession?)
    || (m.Send? && n.Send? && m.to == n.to
        && ((m.notice.TellStop? && n.notice.TellStop?)
            || (m.notice.AskEnd? && n.notice.AskEnd? && !m.notice.last && !n.notice.last)))
  }

  predicate Once(messages: seq<Message>) {
    forall i, j | 0 <= i < j < |messages| :: !Repeats(messages[i], messages[j])
  }

  /** The logout dialog says how the session is to end; other dialogs come from outside a logout. */
  predicate DialogNames(s: State) {
    s.dialog.Some? && EndsSession(s.dialog.value.action) ==> s.dialog.value.action == ActionFor(s.ending)
  }

  predicate Moves(s: State, t: State) {
    && s.phase <= t.phase && t.ending == s.ending && t.clients.Keys <= s.clients.Keys
    && (s.mode == Force ==> t.mode == Force) && (s.phase == t.phase < EXIT ==> t.mode == s.mode)
    && (t.dialog.Some? && !EndsSession(t.dialog.value.action) ==>
          s.dialog.Some? && s.dialog.value.action == t.dialog.value.action)
    && (DialogNames(s) ==> DialogNames(t))
  }

  predicate Said(s: State, t: State, env: Env) {
    && s.log <= t.log && Moves(s, t)
    && (forall m | m in New(s, t) :: Fitting(s, t, m, env))
    && Complete(s, t, env)
    && Once(New(s, t))
  }

  lemma SaidNothing(s: State, t: State, env: Env)
    requires t.log == s.log && t.phase == s.phase && Moves(s, t)
    ensures Said(s, t, env)
  {
    assert New(s, t) == [];
  }

  lemma FittingOn(s: State, t: State, u: State, m: Message, env: Env)
    requires Moves(s, t) && Moves(t, u)
    ensures Fitting(s, t, m, env) ==> Fitting(s, u, m, env)
    ensures Fitting(t, u, m, env) ==> Fitting(s, u, m, env)
  {
  }

  lemma OnceConcat(s: State, t: State, u: State, a: seq<Message>, b: seq<Message>, env: Env)
    requires Once(a) && Once(b)
    requires (forall m | m in a :: Fitting(s, t, m, env)) && (forall m | m in b :: Fitting(t, u, m, env))
    ensures Once(a + b)
  {
    forall i, j | 0 <= i < j < |a + b|
      ensures !Repeats((a + b)[i], (a + b)[j])
    {
      if i < |a| <= j {
        assert a[i] in a && b[j - |a|] in b;
      }
    }
  }

  lemma NewConcat(s: State, t: State, u: State)
    requires s.log <= t.log <= u.log
    ensures New(s, u) == New(s, t) + New(t, u)
  {
  }

  lemma SaidTransitive(s: State, t: State, u: State, env: Env)
    requires Said(s, t, env) && Said(t, u, env)
    ensures Said(s, u, env)
  {
    NewConcat(s, t, u);
    OnceConcat(s, t, u, New(s, t), New(t, u), env);
    forall m | m in New(s, u)
      ensures Fitting(s, u, m, env)
    {
      FittingOn(s, t, u, m, env);
    }
  }

  // ----- ending a phase -----

  lemma EndPhaseAtExit(s: State, env: Env)
    requires s.phase == EXIT
    ensures var t := EndPhase(s, env);
            t.log == s.log + [Quit(s.ending)] && t.phase == EXIT && SameStores(s, t)
  {
  }

  function Saving(env: Env): seq<Message> {
    if env.autoSave && !env.loginWindow then [SaveSession] else []
  }

  lemma EndPhaseAtEnd(s: State, env: Env)
    requires s.phase == END_SESSION
    ensures var t := EndPhase(s, env);
            && t.log == s.log + Farewell(env.order, s.clients, s.ending, env)
            && t.phase == EXIT && SameStores(s, t)
  {
    var f := Finish(s, env);
    var b := Begin(Advance(f), env);
    EndPhaseFrame(s, env);
    assert EndPhase(s, env) == StartPhase(Advance(f), env) == EndPhase(b, env);
    assert f.log == s.log + Saving(env);
    assert b.log == f.log + Notices(env.order, s.clients.Keys, TellStop);
    EndPhaseAtExit(b, env);
  }

  lemma EndPhaseAtQuery(s: State, env: Env)
    requires s.phase == QUERY_END_SESSION
    ensures var t := EndPhase(s, env);
            && SameStores(s, t)
            && (if s.clients == map[] then
                  t.phase == EXIT && t.log == s.log + Farewell(env.order, s.clients, s.ending, env)
                else
                  && t.phase == END_SESSION
                  && t.log == s.log + Notices(env.order, s.clients.Keys * env.endOk,
                                              AskEnd(s.mode == Force, env.autoSave, false)))
  {
    var b := Begin(Advance(Finish(s, env)), env);
    EndPhaseFrame(s, env);
    BeginFrame(Advance(Finish(s, env)), env);
    assert EndPhase(s, env) == StartPhase(Advance(Finish(s, env)), env);
    if s.clients == map[] {
      EndPhaseAtEnd(b, env);
      assert s.clients.Keys == {};
    }
  }

  lemma OnceAppend(a: seq<Message>, b: seq<Message>)
    requires Once(a) && Once(b) && forall m, n | m in a && n in b :: !Repeats(m, n)
    ensures Once(a + b)
  {
    forall i, j | 0 <= i < j < |a + b|
      ensures !Repeats((a + b)[i], (a + b)[j])
    {
      if i < |a| <= j {
        assert a[i] in a && b[j - |a|] in b;
      }
    }
  }

  lemma StopsOnce(order: seq<ClientId>, clients: map<ClientId, Client>)
    requires Walks(order, clients)
    ensures var stops := Notices(order, clients.Keys, TellStop);
            Once(stops) && SentTo(stops, clients.Keys, TellStop)
  {
    WalkSends(order, clients, clients.Keys, TellStop);
    EndMessages(order, clients, clients.Keys, TellStop);
  }

  function Farewell(order: seq<ClientId>, clients: map<ClientId, Client>, ending: Ending, env: Env): seq<Message> {
    Saving(env) + Notices(order, clients.Keys, TellStop) + [Quit(ending)]
  }

  lemma FarewellOnce(order: seq<ClientId>, clients: map<ClientId, Client>, ending: Ending, env: Env)
    requires Walks(order, clients)
    ensures Once(Farewell(order, clients, ending, env))
  {
    StopsOnce(order, clients);
    var stops := Notices(order, clients.Keys, TellStop);
    OnceAppend(Saving(env), stops);
    OnceAppend(Saving(env) + stops, [Quit(ending)]);
  }

  lemma EndMessages(order: seq<ClientId>, clients: map<ClientId, Client>, keep: set<ClientId>, n: Notice)
    requires Walks(order, clients) && keep <= clients.Keys
    ensures Once(Notices(order, keep, n)) || (n.AskEnd? && n.last)
  {
    var all := Notices(order, keep, n);
    WalkSends(order, clients, keep, n);
    forall i, j | 0 <= i < j < |all|
      ensures !Repeats(all[i], all[j])
    {
      assert all[i] in all && all[j] in all;
    }
  }

  predicate IsFarewell(all: seq<Message>, clients: map<ClientId, Client>, ending: Ending, env: Env) {
    && (forall m | m in all :: (m.SaveSession? && env.autoSave && !env.loginWindow) || m == Quit(ending)
                               || (m.Send? && m.notice == TellStop && m.to in clients))
    && Quit(ending) in all && (env.autoSave && !env.loginWindow ==> SaveSession in all)
    && (forall c | c in clients :: Send(c, TellStop) in all)
    && Once(all)
  }

  lemma FarewellIs(order: seq<ClientId>, clients: map<ClientId, Client>, ending: Ending, env: Env)
    requires Walks(order, clients)
    ensures IsFarewell(Farewell(order, clients, ending, env), clients, ending, env)
  {
    var all := Farewell(order, clients, ending, env);
    StopsOnce(order, clients);
    FarewellOnce(order, clients, ending, env);
    assert all[|all| - 1] == Quit(ending);
  }

  lemma FarewellSaid(s: State, t: State, all: seq<Message>, env: Env)
    requires s.phase < EXIT == t.phase && Moves(s, t) && t.clients == s.clients
    requires IsFarewell(all, s.clients, s.ending, env) && t.log == s.log + all
    ensures Said(s, t, env)
  {
    assert New(s, t) == all;
  }

  lemma EndSaid(s: State, t: State, env: Env)
    requires s.phase < END_SESSION == t.phase && Moves(s, t) && t.clients == s.clients && t.mode == s.mode
    requires Walks(env.order, s.clients)
    requires t.log == s.log + Notices(env.order, s.clients.Keys * env.endOk, AskEnd(s.mode == Force, env.autoSave, false))
    ensures Said(s, t, env)
  {
    var keep, n := s.clients.Keys * env.endOk, AskEnd(s.mode == Force, env.autoSave, false);
    WalkSends(env.order, s.clients, keep, n);
    EndMessages(env.order, s.clients, keep, n);
    assert New(s, t) == Notices(env.order, keep, n);
  }

  /** Ending a phase of a logout says what it should, to everybody it should. */
  lemma EndPhaseSays(s: State, env: Env)
    requires s.phase >= QUERY_END_SESSION && Walks(env.order, s.clients)
    ensures Said(s, EndPhase(s, env), env)
  {
    var t := EndPhase(s, env);
    if s.phase == EXIT {
      EndPhaseAtExit(s, env);
      assert New(s, t) == [Quit(s.ending)];
    } else if s.phase == END_SESSION || s.clients == map[] {
      if s.phase == END_SESSION {
        EndPhaseAtEnd(s, env);
      } else {
        EndPhaseAtQuery(s, env);
      }
      FarewellIs(env.order, s.clients, s.ending, env);
      FarewellSaid(s, t, Farewell(env.order, s.clients, s.ending, env), env);
    } else {
      EndPhaseAtQuery(s, env);
      EndSaid(s, t, env);
    }
  }

  // ----- each handler -----

  lemma FittingForced(s: State, u: State, t: State, m: Message, env: Env)
    requires u.phase == s.phase && u.clients == s.clients && u.ending == s.ending && u.mode == Force && u.dialog == None
    requires Fitting(u, t, m, env)
    ensures Fitting(s, t, m, env)
  {
  }

  /** Forcing the logout on, when its dialog is accepted or loses its last row. */
  lemma ForceSays(s: State, u: State, env: Env)
    requires s.phase >= QUERY_END_SESSION && Walks(env.order, s.clients)
    requires u == s.(dialog := None, mode := Force)
    ensures Said(s, EndPhase(u, env), env)
  {
    EndPhaseSays(u, env);
    EndPhaseFrame(u, env);
    var t := EndPhase(u, env);
    assert New(s, t) == New(u, t);
    forall m | m in New(s, t)
      ensures Fitting(s, t, m, env)
    {
      FittingForced(s, u, t, m, env);
    }
    assert Moves(s, t);
  }

  lemma AcceptSays(s: State, env: Env)
    requires s.phase >= QUERY_END_SESSION && Walks(env.order, s.clients)
    ensures Said(s, Accept(s, env), env)
  {
    var t := Accept(s, env);
    if s.dialog.Some? && EndsSession(s.dialog.value.action) {
      ForceSays(s, s.(dialog := None, mode := Force), env);
    } else if s.dialog.None? || t.log == s.log {
      SaidNothing(s, t, env);
    } else {
      assert New(s, t) == [Perform(s.dialog.value.action)];
    }
  }

  lemma RemoveInhibitorsSays(s: State, gone: set<InhibitorId>, env: Env)
    requires s.phase >= QUERY_END_SESSION && Walks(env.order, s.clients)
    ensures Said(s, RemoveInhibitors(s, gone, env), env)
  {
    var t := Without(s, gone);
    SaidNothing(s, s, env);
    SaidNothing(s, t, env);
    AcceptSays(t, env);
    if RemoveInhibitors(s, gone, env) != s && RemoveInhibitors(s, gone, env) != t {
      SaidTransitive(s, t, Accept(t, env), env);
    }
  }

  lemma {:induction false} AddJitsMoves(s: State, list: seq<ClientId>, env: Env)
    ensures Moves(s, AddJits(s, list, env)) && AddJits(s, list, env).log == s.log && AddJits(s, list, env).phase == s.phase
    ensures AddJits(s, list, env).clients == s.clients
  {
    if list != [] {
      AddJitsMoves(s, list[..|list| - 1], env);
    }
  }

  lemma QueryCompleteSays(s: State, env: Env)
    requires s.phase == QUERY_END_SESSION && Walks(env.order, s.clients)
    ensures Said(s, QueryComplete(s, env), env)
  {
    var t := s.(queryTimer := 0);
    SaidNothing(s, t, env);
    if !Inhibited(t.inhibitors, FlagLogout) {
      EndPhaseSays(t, env);
      SaidTransitive(s, t, EndPhase(t, env), env);
    } else {
      SaidNothing(s, QueryComplete(s, env), env);
    }
  }

  lemma SecondRoundSays(s: State, env: Env)
    requires s.phase == END_SESSION
    ensures Said(s, SecondRound(s, env), env)
  {
    var n := AskEnd(s.mode == Force, env.autoSave, true);
    var t := SecondRound(s, env);
    NoticesAreSends(s.next, env.lastOk, n);
    assert New(s, t) == Notices(s.next, env.lastOk, n);
    forall i, j | 0 <= i < j < |New(s, t)|
      ensures !Repeats(New(s, t)[i], New(s, t)[j])
    {
      assert New(s, t)[i] in Notices(s.next, env.lastOk, n);
    }
  }

  lemma AfterAnswerSays(s: State, c: ClientId, last: bool, env: Env)
    requires s.phase >= QUERY_END_SESSION && Walks(env.order, s.clients)
    ensures Said(s, AfterAnswer(s, c, last, env), env)
  {
    SaidNothing(s, s, env);
    if s.phase == QUERY_END_SESSION {
      QueryCompleteSays(s, env);
    } else if s.phase == END_SESSION {
      var t := if last then s.(next := [c] + s.next) else s;
      SaidNothing(s, t, env);
      SecondRoundSays(t, env);
      EndPhaseSays(t, env);
      if AfterAnswer(s, c, last, env) != t {
        SaidTransitive(s, t, AfterAnswer(s, c, last, env), env);
      }
    }
  }

  lemma AnswerSays(s: State, c: ClientId, ok: bool, last: bool, env: Env)
    requires s.phase >= QUERY_END_SESSION && Walks(env.order, s.clients)
    ensures Said(s, Answer(s, c, ok, last, false, env), env)
  {
    var t := s.(query := RemoveFirst(s.query, c));
    SaidNothing(s, t, env);
    var u := if !ok && t.mode != Force then AddJit(t, c, env) else RemoveInhibitors(t, JitsOf(t, c), env);
    if !ok && t.mode != Force {
      SaidNothing(t, u, env);
    } else {
      RemoveInhibitorsSays(t, JitsOf(t, c), env);
      RemoveInhibitorsFrame(t, JitsOf(t, c), env);
    }
    SaidTransitive(s, t, u, env);
    AfterAnswerSays(u, c, last, env);
    SaidTransitive(s, u, AfterAnswer(u, c, last, env), env);
  }

  lemma DropSays(s: State, c: ClientId, env: Env)
    requires s.phase >= QUERY_END_SESSION && Walks(env.order, s.clients)
    ensures Said(s, Drop(s, c, env), env)
  {
    var t := RemoveInhibitors(s, JitsOf(s, c), env);
    RemoveInhibitorsSays(s, JitsOf(s, c), env);
    RemoveInhibitorsFrame(s, JitsOf(s, c), env);
    var u := Disconnect(s, c, env);
    if t.phase == QUERY_END_SESSION {
      AnswerSays(t, c, true, false, env);
      SaidTransitive(s, t, u, env);
    }
    SaidNothing(u, Drop(s, c, env), env);
    SaidTransitive(s, u, Drop(s, c, env), env);
  }

  lemma {:induction false} DropAllSays(s: State, list: seq<ClientId>, name: Option<string>, env: Env)
    requires s.phase >= QUERY_END_SESSION && Walks(env.order, s.clients)
    ensures Said(s, DropAll(s, list, name, env), env)
  {
    if list == [] {
      SaidNothing(s, s, env);
    } else {
      var k := |list| - 1;
      var t := DropAll(s, list[..k], name, env);
      DropAllSays(s, list[..k], name, env);
      if DropAll(s, list, name, env) != t {
        DropSays(t, list[k], env);
        SaidTransitive(s, t, Drop(t, list[k], env), env);
      }
    }
  }

  lemma ExitIfEmptySays(s: State, t: State, env: Env)
    requires s.phase >= QUERY_END_SESSION && Walks(env.order, s.clients) && Said(s, t, env)
    ensures Said(s, ExitIfEmpty(t, env), env)
  {
    if ExitIfEmpty(t, env) != t {
      EndPhaseSays(t, env);
      SaidTransitive(s, t, EndPhase(t, env), env);
    }
  }

  lemma LeaveSays(s: State, e: Event, env: Env)
    requires s.phase >= QUERY_END_SESSION && Walks(env.order, s.clients)
    requires e.EvClientGone? || e.EvBusNameLost? || e.EvBusLost?
    ensures Said(s, ClientStep(s, e, env), env)
  {
    SaidNothing(s, s, env);
    match e
    case EvClientGone(c) =>
      DropSays(s, c, env);
      ExitIfEmptySays(s, Drop(s, c, env), env);
    case EvBusNameLost(name) =>
      var t := RemoveInhibitors(s, OnBus(s, name), env);
      RemoveInhibitorsSays(s, OnBus(s, name), env);
      DropAllSays(t, env.order, Some(name), env);
      SaidTransitive(s, t, DropAll(t, env.order, Some(name), env), env);
      ExitIfEmptySays(s, DropAll(t, env.order, Some(name), env), env);
    case EvBusLost =>
      DropAllSays(s, env.order, None, env);
      ExitIfEmptySays(s, DropAll(s, env.order, None, env), env);
    case _ =>
  }

  lemma QueryTimeoutSays(s: State, env: Env)
    requires s.phase >= QUERY_END_SESSION && Walks(env.order, s.clients) && Shape(s)
    ensures Said(s, QueryTimeout(s, env), env)
  {
    SaidNothing(s, s, env);
    if s.queryTimer != 0 {
      var t := s.(queryTimer := 0);
      var u := (if t.mode == Force then t else AddJits(t, t.query, env)).(query := []);
      AddJitsMoves(t, t.query, env);
      SaidNothing(s, u, env);
      QueryCompleteSays(u, env);
      SaidTransitive(s, u, QueryComplete(u, env), env);
    }
  }

  // ----- each event of a logout -----

  /** The two ways to take a logout back. */
  predicate Cancels(s: State, e: Event) {
    s.phase >= QUERY_END_SESSION &&
      ((e.EvAnswer? && e.cancel && e.client in s.clients)
       || (e.EvDecline? && s.dialog.Some? && EndsSession(s.dialog.value.action)))
  }

  lemma OwnSays(s: State, e: Event, env: Env)
    requires Shape(s) && s.phase >= QUERY_END_SESSION && Walks(env.order, s.clients)
    requires !FromClient(e) && !e.EvSleep? && !Cancels(s, e)
    ensures Said(s, OwnStep(s, e, env), env)
  {
    SaidNothing(s, s, env);
    if e.EvPhaseTimeout? {
      if s.phaseTimer != 0 {
        var t := s.(phaseTimer := 0);
        SaidNothing(s, t, env);
        EndPhaseSays(t, env);
        SaidTransitive(s, t, EndPhase(t, env), env);
      }
    } else if e.EvQueryTimeout? {
      QueryTimeoutSays(s, env);
    } else if e.EvAccept? {
      AcceptSays(s, env);
    } else {
      SaidNothing(s, OwnStep(s, e, env), env);
    }
  }

  lemma ClientSays(s: State, e: Event, env: Env)
    requires s.phase >= QUERY_END_SESSION && Walks(env.order, s.clients)
    requires FromClient(e) && !e.EvConnect? && !Cancels(s, e)
    ensures Said(s, ClientStep(s, e, env), env)
  {
    SaidNothing(s, s, env);
    if e.EvAnswer? {
      if e.client in s.clients {
        AnswerSays(s, e.client, e.ok, e.last, env);
      }
    } else if e.EvUninhibit? {
      RemoveInhibitorsSays(s, WithCookie(s, e.cookie), env);
    } else if e.EvInhibit? {
      SaidNothing(s, ClientStep(s, e, env), env);
    } else if e.EvClientGone? || e.EvBusNameLost? || e.EvBusLost? {
      LeaveSays(s, e, env);
    }
  }

  /** Within a logout that is not taken back, every message fits, and everybody concerned gets it, once. */
  lemma LogoutSays(s: State, e: Event, env: Env)
    requires Inv(s) && Possible(s, e, env) && s.phase >= QUERY_END_SESSION
    requires !Cancels(s, e) && !e.EvSleep? && !e.EvConnect?
    ensures Said(s, Step(s, e, env), env)
  {
    if FromClient(e) {
      ClientSays(s, e, env);
    } else {
      OwnSays(s, e, env);
    }
  }

  /** The session runs again, and every client has been told so, once, and nobody anything else. */
  predicate TakenBack(s: State, t: State) {
    && s.log <= t.log && SentTo(New(s, t), s.clients.Keys, TellCancel)
    && t.phase == RUNNING && t.ending == NoEnding && t.mode == Normal && t.dialog == None && t.clients == s.clients
  }

  lemma WithdrawnSays(s: State, env: Env)
    requires s.phase >= QUERY_END_SESSION && Walks(env.order, s.clients)
    ensures TakenBack(s, Cancel(s, env))
  {
    var d := s.(dialog := None);
    RemoveInhibitorsFrame(d, Jits(s), env);
    CancelResult(s, env);
    WalkSends(env.order, s.clients, s.clients.Keys, TellCancel);
    assert New(s, Cancel(s, env)) == Notices(env.order, s.clients.Keys, TellCancel);
  }

  lemma DeclineSays(s: State, env: Env)
    requires s.phase >= QUERY_END_SESSION && Walks(env.order, s.clients)
    requires s.dialog.Some? && EndsSession(s.dialog.value.action)
    ensures TakenBack(s, Decline(s, env))
  {
    var d := s.(dialog := None);
    WithdrawnSays(d, env);
    assert New(s, Decline(s, env)) == New(d, Decline(s, env));
  }

  lemma CancelIsStep(s: State, e: Event, env: Env)
    requires Cancels(s, e) && e.EvAnswer?
    ensures Step(s, e, env) == Cancel(s, env)
  {
  }

  /** A cancelled logout, by a client or by the user, is taken back. */
  lemma CancelSays(s: State, e: Event, env: Env)
    requires Walks(env.order, s.clients) && Cancels(s, e)
    ensures TakenBack(s, Step(s, e, env))
  {
    if e.EvAnswer? {
      CancelIsStep(s, e, env);
      WithdrawnSays(s, env);
    } else {
      DeclineSays(s, env);
    }
  }

  /** Suspend and hibernate ask for one flag, switching users for another; what is inhibited is not done, but asked about. */
  lemma SleepSays(s: State, a: Action, env: Env)
    ensures var t := RequestSleep(s, a, env);
            var allowed := !EndsSession(a) && !(a == ActSwitchUser && env.switchLocked);
            var free := forall i | i in s.inhibitors ::
                          (if a == ActSwitchUser then FlagSwitchUser else FlagSuspend) !in s.inhibitors[i].flags;
            && t == s.(log := t.log, dialog := t.dialog)
            && t.log == s.log + (if allowed && free then [Perform(a)] else [])
            && t.dialog == if allowed && !free && s.dialog.None? then Some(Dialog(a, s.inhibitors.Keys)) else s.dialog
  {
    assert s.log + [] == s.log;
    assert Inhibited(s.inhibitors, FlagFor(a)) <==> exists i :: i in s.inhibitors && FlagFor(a) in s.inhibitors[i].flags;
  }

  // ----- outside a logout -----

  /** Outside a logout, nothing is sent; at most something is performed. */
  predicate Busy(s: State, t: State) {
    s.log <= t.log && forall m | m in New(s, t) :: m.Perform?
  }

  lemma BusyNothing(s: State, t: State)
    requires t.log == s.log
    ensures Busy(s, t)
  {
    assert New(s, t) == [];
  }

  lemma BusyTransitive(s: State, t: State, u: State)
    requires Busy(s, t) && Busy(t, u)
    ensures Busy(s, u)
  {
    NewConcat(s, t, u);
  }

  lemma {:induction false} StartingSaysNothing(s: State, env: Env)
    requires s.phase <= RUNNING
    ensures StartPhase(s, env).log == s.log
    decreases RUNNING - s.phase
  {
    var b := Begin(s, env);
    BeginFrame(s, env);
    if GoesOn(b) {
      assert StartPhase(s, env) == StartPhase(Advance(Finish(b, env)), env);
      StartingSaysNothing(Advance(Finish(b, env)), env);
    }
  }

  lemma EndingSaysNothing(s: State, env: Env)
    requires s.phase < RUNNING || (s.phase == RUNNING && env.lockedDown)
    ensures EndPhase(s, env).log == s.log
  {
    if s.phase < RUNNING {
      StartingSaysNothing(Advance(Finish(s, env)), env);
    }
  }

  lemma RemovalBusy(s: State, gone: set<InhibitorId>, env: Env)
    requires Inv(s) && s.phase < QUERY_END_SESSION
    ensures var t := RemoveInhibitors(s, gone, env);
            Busy(s, t) && Inv(t) && t.phase == s.phase
  {
    RemoveInhibitorsInv(s, gone, env);
    RemoveInhibitorsPhase(s, gone, env);
    var t := RemoveInhibitors(s, gone, env);
    assert New(s, t) == [] || (s.dialog.Some? && New(s, t) == [Perform(s.dialog.value.action)]);
  }

  lemma {:induction false} DropAllBusy(s: State, list: seq<ClientId>, name: Option<string>, env: Env)
    requires Inv(s) && s.phase < QUERY_END_SESSION
    ensures var t := DropAll(s, list, name, env);
            Busy(s, t) && Inv(t) && t.phase == s.phase
  {
    DropAllInv(s, list, name, env);
    DropAllPhase(s, list, name, env);
    BusyNothing(s, s);
    if list != [] {
      var k := |list| - 1;
      var t := DropAll(s, list[..k], name, env);
      DropAllBusy(s, list[..k], name, env);
      RemovalBusy(t, JitsOf(t, list[k]), env);
      if DropAll(s, list, name, env) != t {
        BusyTransitive(s, t, RemoveInhibitors(t, JitsOf(t, list[k]), env));
        assert New(s, DropAll(s, list, name, env)) == New(s, RemoveInhibitors(t, JitsOf(t, list[k]), env));
      }
    }
  }

  lemma LeaveBusy(s: State, e: Event, env: Env)
    requires Inv(s) && s.phase < QUERY_END_SESSION && (e.EvClientGone? || e.EvBusNameLost? || e.EvBusLost?)
    ensures Busy(s, ClientStep(s, e, env))
  {
    BusyNothing(s, s);
    match e
    case EvClientGone(c) =>
      RemovalBusy(s, JitsOf(s, c), env);
      assert ClientStep(s, e, env).log == s.log || ClientStep(s, e, env).log == RemoveInhibitors(s, JitsOf(s, c), env).log;
    case EvBusNameLost(name) =>
      var t := RemoveInhibitors(s, OnBus(s, name), env);
      RemovalBusy(s, OnBus(s, name), env);
      DropAllBusy(t, env.order, Some(name), env);
      BusyTransitive(s, t, DropAll(t, env.order, Some(name), env));
    case EvBusLost => DropAllBusy(s, env.order, None, env);
    case _ =>
  }

  lemma SignalSaysNothing(s: State, a: App, env: Env)
    requires Shape(s)
    ensures AppSignal(s, a, env).log == s.log
  {
    if a in s.pending {
      EndingSaysNothing(s.(pending := s.pending - {a}, phaseTimer := 0), env);
    }
  }

  lemma ClientBusy(s: State, e: Event, env: Env)
    requires Inv(s) && s.phase < QUERY_END_SESSION && FromClient(e)
    ensures Busy(s, ClientStep(s, e, env))
  {
    if e.EvClientGone? || e.EvBusNameLost? || e.EvBusLost? {
      LeaveBusy(s, e, env);
    } else if e.EvUninhibit? {
      RemovalBusy(s, WithCookie(s, e.cookie), env);
    } else {
      if e.EvRegisterXsmp? && e.found.Some? {
        SignalSaysNothing(s, e.found.value, env);
      } else if e.EvRegisterDBus? && e.found.Some? {
        var id := if e.startupId == "" then env.generated else e.startupId;
        SignalSaysNothing(AddClient(s, Client(Some(e.bus), id, AppIdOr(s, e.found, e.appId), false)), e.found.value, env);
      }
      BusyNothing(s, ClientStep(s, e, env));
    }
  }

  lemma PhaseBusy(s: State, e: Event, env: Env)
    requires Inv(s) && s.phase < QUERY_END_SESSION && EndsPhases(e) && OwnStep(s, e, env).phase < QUERY_END_SESSION
    ensures OwnStep(s, e, env).log == s.log
  {
    match e
    case EvStart => StartingSaysNothing(s.(phase := INITIALIZATION), env);
    case EvAppSignal(a) => SignalSaysNothing(s, a, env);
    case EvPhaseTimeout => if s.phaseTimer != 0 { EndingSaysNothing(s.(phaseTimer := 0), env); }
    case EvLogout(mode) => EndPhaseFrame(s.(mode := mode, ending := Logout), env);
    case EvHalt(ending) => EndPhaseFrame(s.(ending := ending), env);
    case _ =>
  }

  lemma OwnBusy(s: State, e: Event, env: Env)
    requires Inv(s) && s.phase < QUERY_END_SESSION && !FromClient(e) && OwnStep(s, e, env).phase < QUERY_END_SESSION
    ensures Busy(s, OwnStep(s, e, env))
  {
    var t := OwnStep(s, e, env);
    if EndsPhases(e) {
      PhaseBusy(s, e, env);
      BusyNothing(s, t);
    } else if e.EvSleep? {
      SleepSays(s, e.action, env);
    } else if e.EvAccept? {
      assert t.log == s.log || (s.dialog.Some? && t.log == s.log + [Perform(s.dialog.value.action)]);
    } else {
      BusyNothing(s, t);
    }
  }

  // ----- the query -----

  /** The requests that start a logout. */
  predicate StartsLogout(s: State, e: Event, env: Env) {
    s.phase == RUNNING && !env.lockedDown &&
      match e
      case EvLogout(mode) => !(mode == Normal && env.prompt)
      case EvHalt(ending) => ending != NoEnding && ending != Logout
      case _ => false
  }

  function RequestedEnding(e: Event): Ending {
    match e
    case EvHalt(ending) => ending
    case _ => Logout
  }

  function RequestedMode(e: Event): Mode {
    match e
    case EvLogout(mode) => mode
    case _ => Normal
  }

  /** Every client that can be reached is asked, once, and all who were asked are awaited. */
  ghost predicate QueryAsked(s: State, t: State, ending: Ending, mode: Mode, env: Env) {
    var reached := t.clients.Keys * env.queryOk;
    && t.phase == QUERY_END_SESSION && t.clients == s.clients && t.ending == ending && t.mode == mode
    && s.log <= t.log && SentTo(New(s, t), reached, AskQuery(mode == Force))
    && NoDuplicates(t.query) && (forall c :: c in t.query <==> c in reached)
    && t.queryTimer != 0
  }

  lemma QueryBegun(s: State, u: State, env: Env)
    requires u.phase == RUNNING && !env.lockedDown && Walks(env.order, u.clients)
    requires u == s.(mode := u.mode, ending := u.ending)
    ensures QueryAsked(s, EndPhase(u, env), u.ending, u.mode, env)
  {
    var t := EndPhase(u, env);
    assert EndPhase(u, env) == StartPhase(Advance(Finish(u, env)), env);
    assert t == Begin(Advance(Finish(u, env)), env);
    var keep := u.clients.Keys * env.queryOk;
    WalkSends(env.order, u.clients, keep, AskQuery(u.mode == Force));
    PrependedMembers(env.order, keep);
    PrependedOnce(env.order, keep);
    assert New(s, t) == Notices(env.order, keep, AskQuery(u.mode == Force));
  }

  /** A logout starts exactly on such a request, in the mode and with the ending requested, and asks everybody. */
  lemma QueryAsksEverybody(s: State, e: Event, env: Env)
    requires Inv(s) && Possible(s, e, env) && s.phase < QUERY_END_SESSION
    ensures var t := Step(s, e, env);
            && (t.phase >= QUERY_END_SESSION <==> StartsLogout(s, e, env))
            && (t.phase >= QUERY_END_SESSION ==> QueryAsked(s, t, RequestedEnding(e), RequestedMode(e), env))
  {
    StepPhase(s, e, env);
    if s.phase == RUNNING && e.EvLogout? {
      if StartsLogout(s, e, env) {
        QueryBegun(s, s.(mode := e.mode, ending := Logout), env);
      }
    } else if s.phase == RUNNING && e.EvHalt? {
      if StartsLogout(s, e, env) {
        QueryBegun(s, s.(ending := e.ending), env);
      } else {
        EndPhaseFrame(s.(ending := e.ending), env);
      }
    }
  }

  // ----- the last round -----

  lemma {:induction false} PrependedCounts(order: seq<ClientId>, keep: set<ClientId>, c: ClientId)
    ensures multiset(Prepended(order, keep))[c] == if c in keep then multiset(order)[c] else 0
  {
    if order != [] {
      var k := |order| - 1;
      PrependedCounts(order[..k], keep, c);
      assert order == order[..k] + [order[k]];
    }
  }

  /** Those who asked to be last, with the one who asks now. */
  function Waiting(s: State, c: ClientId, last: bool): seq<ClientId> {
    (if last then [c] else []) + s.next
  }

  /** The last round starts when nobody else is awaited and nothing inhibits logout, and tells all who wait for it. */
  ghost predicate LastRound(s: State, t: State, c: ClientId, last: bool, env: Env)
    requires s.log <= t.log
  {
    var waiting, left := Waiting(s, c, last), RemoveFirst(s.query, c);
    if left == [] && !Inhibited(t.inhibitors, FlagLogout) && waiting != [] then
      && t.next == [] && Told(New(s, t)) == multiset(t.query)
      && (forall x: ClientId :: multiset(t.query)[x] == if x in env.lastOk then multiset(waiting)[x] else 0)
    else t.next == waiting && t.query == left && Told(New(s, t)) == multiset{}
  }

  lemma RoundCounts(v: State, env: Env)
    requires v.query == []
    ensures var t := SecondRound(v, env);
            && t.query == Prepended(v.next, env.lastOk)
            && forall x: ClientId :: multiset(t.query)[x] == if x in env.lastOk then multiset(v.next)[x] else 0
  {
    var t := SecondRound(v, env);
    assert t.query == Prepended(v.next, env.lastOk);
    forall x: ClientId
      ensures multiset(t.query)[x] == if x in env.lastOk then multiset(v.next)[x] else 0
    {
      PrependedCounts(v.next, env.lastOk, x);
    }
  }

  lemma NothingAndMore(a: multiset<ClientId>, b: multiset<ClientId>)
    requires a == multiset{}
    ensures a + b == b
  {
  }

  lemma RoundTold(s: State, u: State, v: State, env: Env)
    requires s.log <= u.log && Told(New(s, u)) == multiset{} && v.log == u.log && v.query == []
    ensures var t := SecondRound(v, env);
            s.log <= t.log && Told(New(s, t)) == multiset(Prepended(v.next, env.lastOk))
  {
    var t := SecondRound(v, env);
    Appended(u, t, v.next, env.lastOk, AskEnd(v.mode == Force, env.autoSave, true));
    NewTransitive(s, u, t);
    NothingAndMore(Told(New(s, u)), Told(New(u, t)));
  }

  lemma RoundStarts(s: State, u: State, c: ClientId, last: bool, env: Env)
    requires s.log <= u.log && Told(New(s, u)) == multiset{}
    requires u.phase == END_SESSION && u.next == s.next && u.query == RemoveFirst(s.query, c)
    requires AfterAnswer(u, c, last, env).phase == END_SESSION
    ensures s.log <= AfterAnswer(u, c, last, env).log
    ensures LastRound(s, AfterAnswer(u, c, last, env), c, last, env)
  {
    var v := if last then u.(next := [c] + u.next) else u;
    EndPhaseFrame(v, env);
    if v.query == [] && !Inhibited(v.inhibitors, FlagLogout) && v.next != [] {
      RoundTold(s, u, v, env);
      RoundCounts(v, env);
    } else {
      assert AfterAnswer(u, c, last, env) == v;
      assert New(s, v) == New(s, u);
    }
  }

  lemma AnswerRound(s: State, c: ClientId, ok: bool, last: bool, env: Env)
    requires Inv(s) && s.phase == END_SESSION && Answer(s, c, ok, last, false, env).phase == END_SESSION
    ensures s.log <= Answer(s, c, ok, last, false, env).log
    ensures LastRound(s, Answer(s, c, ok, last, false, env), c, last, env)
  {
    var t := s.(query := RemoveFirst(s.query, c));
    var u := if !ok && t.mode != Force then AddJit(t, c, env) else RemoveInhibitors(t, JitsOf(t, c), env);
    RemoveInhibitorsPhase(t, JitsOf(t, c), env);
    RemoveInhibitorsKept(t, JitsOf(t, c), env);
    KeptSame(t, AddJit(t, c, env));
    AfterAnswerFrame(u, c, last, env);
    assert New(s, u) == New(t, u);
    RoundStarts(s, u, c, last, env);
  }

  // ----- what a dialog about something else performs -----

  /** Its action is carried out when it is accepted, by the user or by losing its last row. */
  predicate Emptied(s: State, gone: set<InhibitorId>) {
    s.dialog.Some? && !(gone !! s.inhibitors.Keys) && s.dialog.value.rows <= gone
  }

  predicate Performs(s: State, t: State, done: bool, env: Env) {
    s.dialog.Some? && !EndsSession(s.dialog.value.action) ==>
      var a := s.dialog.value.action;
      && t.log == s.log + (if done && !(a == ActSwitchUser && env.switchLocked) then [Perform(a)] else [])
      && t.dialog.None? == done && t.phase == s.phase && t.mode == s.mode
  }

  lemma PerformedExactlyWhen(s: State, gone: set<InhibitorId>, env: Env)
    ensures s.dialog.Some? ==> Performs(s, Accept(s, env), true, env)
    ensures Performs(s, RemoveInhibitors(s, gone, env), Emptied(s, gone), env)
    ensures s.dialog.Some? && !EndsSession(s.dialog.value.action) ==> Decline(s, env) == s.(dialog := None)
  {
    assert s.log + [] == s.log;
    if s.dialog.Some? {
      assert s.dialog.value.rows <= gone + (s.dialog.value.rows - gone);
    }
  }

  // ----- when the last client goes -----

  /** In a logout, a disconnection that leaves no client takes the session to the exit, whatever inhibits it. */
  lemma LastClientExits(s: State, e: Event, env: Env)
    requires Inv(s) && s.phase >= QUERY_END_SESSION && s.clients != map[]
    requires e.EvClientGone? || e.EvBusNameLost? || e.EvBusLost?
    ensures var t := ClientStep(s, e, env); t.clients == map[] ==> t.phase == EXIT
  {
    match e
    case EvClientGone(c) =>
      DropFrame(s, c, env);
      EmptyExits(Drop(s, c, env), env);
    case EvBusNameLost(name) =>
      var r := RemoveInhibitors(s, OnBus(s, name), env);
      RemoveInhibitorsOnward(s, OnBus(s, name), env);
      DropAllOnward(r, env.order, Some(name), env);
      EmptyExits(DropAll(r, env.order, Some(name), env), env);
    case EvBusLost =>
      DropAllOnward(s, env.order, None, env);
      EmptyExits(DropAll(s, env.order, None, env), env);
    case _ =>
  }

  lemma EmptyExits(t: State, env: Env)
    ensures var u := ExitIfEmpty(t, env);
            t.phase >= QUERY_END_SESSION && u.clients == map[] ==> u.phase == EXIT
    ensures ExitIfEmpty(t, env).clients == t.clients
  {
    EndPhaseFrame(t, env);
    if t.clients == map[] && t.phase == QUERY_END_SESSION {
      EndPhaseAtQuery(t, env);
    }
  }
}
