/**
 Ending the session goes in rounds: first everybody is told to go, then those
 who asked to be last. A new round starts only when the one before has been
 answered, and no number of rounds can hold up the end.
 */
module SessionRounds {
  import opened Wrappers
  import opened Session
  import opened SessionInvariant
  import opened SessionFrames

  // ----- counting the messages -----

  predicate IsAskEnd(m: Message) {
    m.Send? && m.notice.AskEnd?
  }

  function ToldBy(m: Message): multiset<ClientId> {
    if IsAskEnd(m) then multiset{m.to} else multiset{}
  }

  /** The clients that were told to end, as often as they were. */
  function Told(messages: seq<Message>): multiset<ClientId> {
    if messages == [] then multiset{}
    else
      Told(messages[..|messages| - 1]) + ToldBy(messages[|messages| - 1])
  }

  lemma LastOfConcat(a: seq<Message>, b: seq<Message>)
    requires b != []
    ensures (a + b)[..|a + b| - 1] == a + b[..|b| - 1] && (a + b)[|a + b| - 1] == b[|b| - 1]
  {
  }

  lemma ToldUnfolds(messages: seq<Message>, before: seq<Message>, m: Message)
    requires messages != [] && before == messages[..|messages| - 1] && m == messages[|messages| - 1]
    ensures Told(messages) == Told(before) + ToldBy(m)
  {
  }

  lemma SumsAssociate(a: multiset<ClientId>, b: multiset<ClientId>, c: multiset<ClientId>)
    ensures (a + b) + c == a + (b + c)
  {
  }

  lemma {:induction false} ToldConcat(a: seq<Message>, b: seq<Message>)
    ensures Told(a + b) == Told(a) + Told(b)
  {
    if b == [] {
      assert a + b == a;
    } else {
      var k := |b| - 1;
      ToldConcat(a, b[..k]);
      LastOfConcat(a, b);
      ToldUnfolds(a + b, a + b[..k], b[k]);
      ToldUnfolds(b, b[..k], b[k]);
      SumsAssociate(Told(a), Told(b[..k]), ToldBy(b[k]));
    }
  }

  lemma ToldOne(messages: seq<Message>, m: Message)
    ensures Told(messages + [m]) == Told(messages) + ToldBy(m)
  {
    ToldUnfolds(messages + [m], messages, m);
  }

  lemma CountOne(c: ClientId, list: seq<ClientId>)
    ensures multiset([c] + list) == multiset(list) + multiset{c}
  {
  }

  lemma {:induction false} ToldNotices(order: seq<ClientId>, keep: set<ClientId>, n: Notice)
    ensures Told(Notices(order, keep, n)) == if n.AskEnd? then multiset(Prepended(order, keep)) else multiset{}
  {
    if order != [] {
      var k := |order| - 1;
      ToldNotices(order[..k], keep, n);
      if order[k] in keep {
        ToldOne(Notices(order[..k], keep, n), Send(order[k], n));
        CountOne(order[k], Prepended(order[..k], keep));
      } else {
        assert Notices(order, keep, n) == Notices(order[..k], keep, n);
        assert Prepended(order, keep) == Prepended(order[..k], keep);
      }
    }
  }

  /** What was sent between two states of the log. */
  function New(s: State, t: State): seq<Message>
    requires s.log <= t.log
  {
    t.log[|s.log|..]
  }

  lemma NewTransitive(s: State, t: State, u: State)
    requires s.log <= t.log <= u.log
    ensures New(s, u) == New(s, t) + New(t, u) && Told(New(s, u)) == Told(New(s, t)) + Told(New(t, u))
  {
    ToldConcat(New(s, t), New(t, u));
  }

  // ----- what each handler sends -----

  /** Seen from before the end: whoever is told to end is expected to answer. */
  predicate Opened(s: State, t: State) {
    && s.log <= t.log
    && (t.phase < END_SESSION ==> Told(New(s, t)) == multiset{})
    && (t.phase == END_SESSION ==> Told(New(s, t)) <= multiset(t.query))
  }

  /** Seen from within the end: nobody is told anything, and nothing is expected less or more. */
  predicate Unmoved(s: State, t: State) {
    && s.log <= t.log
    && (t.phase == END_SESSION ==> Told(New(s, t)) == multiset{} && t.query == s.query && t.phaseTimer == s.phaseTimer)
  }

  predicate Kept(s: State, t: State) {
    if s.phase == END_SESSION then Unmoved(s, t) else Opened(s, t)
  }

  lemma KeptTransitive(s: State, t: State, u: State)
    requires Kept(s, t) && Kept(t, u) && s.phase <= t.phase <= u.phase
    ensures Kept(s, u)
  {
    NewTransitive(s, t, u);
  }

  lemma KeptSame(s: State, t: State)
    requires t.log == s.log && t.query == s.query && t.phaseTimer == s.phaseTimer
    ensures Kept(s, t)
  {
    assert New(s, t) == [];
  }

  lemma Appended(s: State, t: State, order: seq<ClientId>, keep: set<ClientId>, n: Notice)
    requires t.log == s.log + Notices(order, keep, n)
    ensures s.log <= t.log
    ensures Told(New(s, t)) == if n.AskEnd? then multiset(Prepended(order, keep)) else multiset{}
  {
    ToldNotices(order, keep, n);
  }

  lemma BeginOpened(s: State, env: Env)
    ensures Opened(s, Begin(s, env))
    ensures s.phase == END_SESSION && s.clients == map[] ==> Begin(s, env).log == s.log
  {
    if s.phase == QUERY_END_SESSION {
      Appended(s, Begin(s, env), env.order, s.clients.Keys * env.queryOk, AskQuery(s.mode == Force));
    } else if s.phase == END_SESSION && s.clients != map[] {
      Appended(s, Begin(s, env), env.order, s.clients.Keys * env.endOk, AskEnd(s.mode == Force, env.autoSave, false));
    } else if s.phase == EXIT {
      Appended(s, Begin(s, env), env.order, s.clients.Keys, TellStop);
    } else {
      assert New(s, Begin(s, env)) == [];
    }
  }

  lemma {:induction false} StartPhaseOpened(s: State, env: Env)
    ensures Opened(s, StartPhase(s, env))
    decreases EXIT - s.phase, 1
  {
    BeginOpened(s, env);
    BeginFrame(s, env);
    var t := Begin(s, env);
    if GoesOn(t) {
      EndPhaseKept(t, env);
      EndPhaseFrame(t, env);
      NewTransitive(s, t, EndPhase(t, env));
    }
  }

  lemma {:induction false} EndPhaseKept(s: State, env: Env)
    ensures Kept(s, EndPhase(s, env))
    decreases EXIT - s.phase, 0
  {
    var t := Finish(s, env);
    assert New(s, t) == [] || New(s, t) == [SaveSession] || New(s, t) == [Quit(s.ending)];
    EndPhaseFrame(s, env);
    if !Stays(s, env) {
      StartPhaseOpened(Advance(t), env);
      NewTransitive(s, Advance(t), EndPhase(s, env));
    }
  }

  lemma AcceptKept(s: State, env: Env)
    ensures Kept(s, Accept(s, env))
  {
    if s.dialog.Some? && EndsSession(s.dialog.value.action) {
      EndPhaseKept(s.(dialog := None, mode := Force), env);
    } else {
      assert New(s, Accept(s, env)) == [] || (s.dialog.Some? && New(s, Accept(s, env)) == [Perform(s.dialog.value.action)]);
    }
  }

  lemma RemoveInhibitorsKept(s: State, gone: set<InhibitorId>, env: Env)
    ensures Kept(s, RemoveInhibitors(s, gone, env))
  {
    KeptSame(s, s);
    var t := Without(s, gone);
    KeptSame(s, t);
    AcceptKept(t, env);
  }

  // ----- answers -----

  lemma {:induction false} RemoveFirstCounts(list: seq<ClientId>, c: ClientId)
    ensures multiset(RemoveFirst(list, c)) == multiset(list) - multiset{c}
  {
    if list != [] {
      assert list == [list[0]] + list[1..];
      if list[0] != c {
        RemoveFirstCounts(list[1..], c);
      }
    }
  }

  /** Only last messages are sent within the end. */
  predicate OnlyLast(messages: seq<Message>) {
    forall m | m in messages && IsAskEnd(m) :: m.notice.last
  }

  /** The part of an answer that comes after inhibitors changed: a new round starts only from an empty list. */
  predicate RoundKept(s: State, t: State) {
    && s.log <= t.log
    && (t.phase == END_SESSION ==>
          && t.phaseTimer == s.phaseTimer
          && OnlyLast(New(s, t))
          && (Told(New(s, t)) != multiset{} ==> s.query == [])
          && Told(New(s, t)) + multiset(s.query) <= multiset(t.query))
  }

  lemma {:induction false} ToldNobody(messages: seq<Message>)
    requires Told(messages) == multiset{}
    ensures OnlyLast(messages)
  {
    if messages != [] {
      var k := |messages| - 1;
      ToldNobody(messages[..k]);
      assert messages == messages[..k] + [messages[k]];
    }
  }

  lemma OnlyLastConcat(a: seq<Message>, b: seq<Message>)
    requires OnlyLast(a) && OnlyLast(b)
    ensures OnlyLast(a + b)
  {
  }

  lemma SecondRoundKept(s: State, env: Env)
    requires s.phase == END_SESSION && s.query == []
    ensures RoundKept(s, SecondRound(s, env))
  {
    var n := AskEnd(s.mode == Force, env.autoSave, true);
    Appended(s, SecondRound(s, env), s.next, env.lastOk, n);
    NoticesAreSends(s.next, env.lastOk, n);
    assert Prepended(s.next, env.lastOk) + s.query == Prepended(s.next, env.lastOk);
  }

  lemma AfterEndAnswer(s: State, c: ClientId, last: bool, env: Env)
    requires s.phase == END_SESSION
    ensures RoundKept(s, AfterAnswer(s, c, last, env))
    ensures AfterAnswer(s, c, last, env).phase >= END_SESSION
  {
    var t := if last then s.(next := [c] + s.next) else s;
    assert New(s, t) == [];
    if t.query == [] && !Inhibited(t.inhibitors, FlagLogout) {
      if t.next != [] {
        SecondRoundKept(t, env);
        assert New(s, SecondRound(t, env)) == New(t, SecondRound(t, env));
      } else {
        EndPhaseKept(t, env);
        EndPhaseFrame(t, env);
      }
    }
  }

  lemma AfterQueryAnswer(s: State, c: ClientId, last: bool, env: Env)
    requires s.phase != END_SESSION
    ensures Opened(s, AfterAnswer(s, c, last, env))
  {
    KeptSame(s, s);
    if s.phase == QUERY_END_SESSION {
      var t := s.(queryTimer := 0);
      EndPhaseKept(t, env);
      assert s.query == [] ==> New(s, QueryComplete(s, env)) == New(t, QueryComplete(s, env));
    }
  }

  /** An answer given to the query. */
  lemma QueryAnswerOpened(s: State, c: ClientId, ok: bool, last: bool, env: Env)
    requires s.phase == QUERY_END_SESSION
    ensures Opened(s, Answer(s, c, ok, last, false, env))
  {
    var t := s.(query := RemoveFirst(s.query, c));
    var u := if !ok && t.mode != Force then AddJit(t, c, env) else RemoveInhibitors(t, JitsOf(t, c), env);
    RemoveInhibitorsKept(t, JitsOf(t, c), env);
    RemoveInhibitorsPhase(t, JitsOf(t, c), env);
    assert Opened(s, u) by {
      assert New(s, u) == New(t, u);
    }
    AfterAnswerFrame(u, c, last, env);
    var v := AfterAnswer(u, c, last, env);
    if u.phase == END_SESSION {
      AfterEndAnswer(u, c, last, env);
    } else {
      AfterQueryAnswer(u, c, last, env);
    }
    NewTransitive(s, u, v);
  }

  /** An answer given within the end takes one expectation back, and starts a new round only if it was the last one. */
  predicate Heard(s: State, t: State, c: ClientId) {
    && s.log <= t.log
    && (t.phase == END_SESSION ==>
          && t.phaseTimer == s.phaseTimer
          && OnlyLast(New(s, t))
          && (Told(New(s, t)) != multiset{} ==> multiset(s.query) <= multiset{c})
          && Told(New(s, t)) + multiset(s.query) <= multiset(t.query) + multiset{c})
  }

  lemma EndAnswerHeard(s: State, c: ClientId, ok: bool, last: bool, env: Env)
    requires s.phase == END_SESSION
    ensures Heard(s, Answer(s, c, ok, last, false, env), c)
  {
    var t := s.(query := RemoveFirst(s.query, c));
    RemoveFirstCounts(s.query, c);
    var u := if !ok && t.mode != Force then AddJit(t, c, env) else RemoveInhibitors(t, JitsOf(t, c), env);
    RemoveInhibitorsKept(t, JitsOf(t, c), env);
    RemoveInhibitorsPhase(t, JitsOf(t, c), env);
    KeptSame(t, AddJit(t, c, env));
    assert Unmoved(t, u) && New(s, u) == New(t, u);
    AfterAnswerFrame(u, c, last, env);
    var v := AfterAnswer(u, c, last, env);
    if u.phase == END_SESSION {
      AfterEndAnswer(u, c, last, env);
      HeardFrom(s, t, u, v, c);
    }
  }

  lemma HeardFrom(s: State, t: State, u: State, v: State, c: ClientId)
    requires t.log == s.log && t.phaseTimer == s.phaseTimer && multiset(t.query) == multiset(s.query) - multiset{c}
    requires Unmoved(t, u) && RoundKept(u, v) && u.phase == END_SESSION
    ensures Heard(s, v, c)
  {
    NewTransitive(s, u, v);
    assert New(s, u) == New(t, u);
    ToldNobody(New(s, u));
    if v.phase == END_SESSION {
      OnlyLastConcat(New(s, u), New(u, v));
    }
  }

  // ----- the other handlers -----

  lemma CancelKept(s: State, env: Env)
    ensures Kept(s, Cancel(s, env))
  {
    KeptSame(s, s);
    if s.phase >= QUERY_END_SESSION {
      var d := s.(dialog := None);
      var t := RemoveInhibitors(d, Jits(d), env);
      CancelResult(s, env);
      assert t.log == s.log;
      Appended(s, Cancel(s, env), env.order, t.clients.Keys, TellCancel);
    }
  }

  lemma DropKept(s: State, c: ClientId, env: Env)
    ensures Kept(s, Drop(s, c, env))
  {
    var t := RemoveInhibitors(s, JitsOf(s, c), env);
    RemoveInhibitorsKept(s, JitsOf(s, c), env);
    RemoveInhibitorsOnward(s, JitsOf(s, c), env);
    if t.phase == QUERY_END_SESSION {
      var u := Answer(t, c, true, false, false, env);
      QueryAnswerOpened(t, c, true, false, env);
      AgreementFrame(t, c, false, env);
      KeptTransitive(s, t, u);
    }
    var v := Disconnect(s, c, env);
    assert Drop(s, c, env).log == v.log;
  }

  lemma {:induction false} DropAllKept(s: State, list: seq<ClientId>, name: Option<string>, env: Env)
    ensures Kept(s, DropAll(s, list, name, env)) && DropAll(s, list, name, env).phase >= s.phase
  {
    if list == [] {
      KeptSame(s, s);
    } else {
      var t := DropAll(s, list[..|list| - 1], name, env);
      var c := list[|list| - 1];
      DropAllKept(s, list[..|list| - 1], name, env);
      DropKept(t, c, env);
      DropFrame(t, c, env);
      if DropAll(s, list, name, env) != t {
        KeptTransitive(s, t, Drop(t, c, env));
      }
    }
  }

  lemma ExitIfEmptyKept(s: State, env: Env)
    ensures Kept(s, ExitIfEmpty(s, env)) && ExitIfEmpty(s, env).phase >= s.phase
  {
    KeptSame(s, s);
    EndPhaseKept(s, env);
    EndPhaseFrame(s, env);
  }

  lemma LeaveKept(s: State, e: Event, env: Env)
    requires e.EvClientGone? || e.EvBusNameLost? || e.EvBusLost?
    ensures Kept(s, ClientStep(s, e, env))
  {
    KeptSame(s, s);
    match e
    case EvClientGone(c) =>
      var t := Drop(s, c, env);
      DropKept(s, c, env);
      DropFrame(s, c, env);
      ExitIfEmptyKept(t, env);
      KeptTransitive(s, t, ExitIfEmpty(t, env));
    case EvBusNameLost(name) =>
      var t := RemoveInhibitors(s, OnBus(s, name), env);
      var u := DropAll(t, env.order, Some(name), env);
      RemoveInhibitorsKept(s, OnBus(s, name), env);
      RemoveInhibitorsOnward(s, OnBus(s, name), env);
      DropAllKept(t, env.order, Some(name), env);
      KeptTransitive(s, t, u);
      ExitIfEmptyKept(u, env);
      KeptTransitive(s, u, ExitIfEmpty(u, env));
    case EvBusLost =>
      var u := DropAll(s, env.order, None, env);
      DropAllKept(s, env.order, None, env);
      ExitIfEmptyKept(u, env);
      KeptTransitive(s, u, ExitIfEmpty(u, env));
    case _ =>
  }

  lemma AnswerKept(s: State, c: ClientId, ok: bool, last: bool, cancel: bool, env: Env)
    requires cancel || s.phase != END_SESSION
    ensures Kept(s, Answer(s, c, ok, last, cancel, env))
  {
    KeptSame(s, s);
    if s.phase < QUERY_END_SESSION {
    } else if cancel {
      CancelKept(s, env);
    } else if s.phase == QUERY_END_SESSION {
      QueryAnswerOpened(s, c, ok, last, env);
    } else {
      var t := s.(query := RemoveFirst(s.query, c));
      RemoveInhibitorsKept(t, JitsOf(t, c), env);
      RemoveInhibitorsPhase(t, JitsOf(t, c), env);
    }
  }

  lemma AppSignalKept(s: State, a: App, env: Env)
    requires Shape(s)
    ensures Kept(s, AppSignal(s, a, env)) && AppSignal(s, a, env).phase >= s.phase
  {
    KeptSame(s, s);
    if a in s.pending {
      var t := s.(pending := s.pending - {a}, phaseTimer := 0);
      EndPhaseKept(t, env);
      EndPhaseFrame(t, env);
      assert New(s, AppSignal(s, a, env)) == [] || New(s, AppSignal(s, a, env)) == New(t, EndPhase(t, env));
    }
  }

  lemma RegisterXsmpKept(s: State, c: ClientId, previous: string, app: Option<App>, env: Env)
    requires Shape(s)
    ensures Kept(s, RegisterXsmp(s, c, previous, app, env))
  {
    KeptSame(s, s);
    if app.Some? {
      AppSignalKept(s, app.value, env);
    }
  }

  lemma RegisterDBusKept(s: State, startupId: string, appId: string, bus: string, app: Option<App>, env: Env)
    requires Shape(s)
    ensures Kept(s, RegisterDBus(s, startupId, appId, bus, app, env))
  {
    var id := if startupId == "" then env.generated else startupId;
    var t := AddClient(s, Client(Some(bus), id, AppIdOr(s, app, appId), false));
    KeptSame(s, s);
    KeptSame(s, t);
    if app.Some? {
      AppSignalKept(t, app.value, env);
      KeptTransitive(s, t, AppSignal(t, app.value, env));
    }
  }

  lemma JoinKept(s: State, e: Event, env: Env)
    requires Shape(s) && (e.EvConnect? || e.EvRegisterXsmp? || e.EvRegisterDBus? || e.EvInhibit?)
    ensures Kept(s, ClientStep(s, e, env))
  {
    match e
    case EvRegisterXsmp(c, previous, app) => RegisterXsmpKept(s, c, previous, app, env);
    case EvRegisterDBus(startupId, appId, bus, app) => RegisterDBusKept(s, startupId, appId, bus, app, env);
    case _ => KeptSame(s, ClientStep(s, e, env));
  }

  lemma QueryTimeoutKept(s: State, env: Env)
    requires Shape(s)
    ensures Kept(s, QueryTimeout(s, env))
  {
    KeptSame(s, s);
    if s.queryTimer != 0 {
      var t := s.(queryTimer := 0);
      AddJitsFrame(t, t.query, env);
      var u := (if t.mode == Force then t else AddJits(t, t.query, env)).(query := [], queryTimer := 0);
      EndPhaseKept(u, env);
      assert New(s, QueryTimeout(s, env)) == [] || New(s, QueryTimeout(s, env)) == New(u, EndPhase(u, env));
    }
  }

  lemma PhaseEventKept(s: State, e: Event, env: Env)
    requires Shape(s) && EndsPhases(e)
    ensures Kept(s, OwnStep(s, e, env))
  {
    KeptSame(s, s);
    match e
    case EvStart => StartPhaseOpened(s.(phase := INITIALIZATION), env);
    case EvAppSignal(a) => AppSignalKept(s, a, env);
    case EvPhaseTimeout =>
      EndPhaseKept(s.(phaseTimer := 0), env);
      EndPhaseFrame(s.(phaseTimer := 0), env);
    case EvQueryTimeout => QueryTimeoutKept(s, env);
    case EvLogout(mode) => EndPhaseKept(s.(mode := mode, ending := Logout), env);
    case EvHalt(ending) => EndPhaseKept(s.(ending := ending), env);
    case _ =>
  }

  lemma DialogEventKept(s: State, e: Event, env: Env)
    requires e.EvSleep? || e.EvAccept? || e.EvDecline? || e.EvPresence?
    ensures Kept(s, OwnStep(s, e, env))
  {
    KeptSame(s, s);
    match e
    case EvSleep(a) =>
      assert New(s, RequestSleep(s, a, env)) == [] || New(s, RequestSleep(s, a, env)) == [Perform(a)];
    case EvAccept => AcceptKept(s, env);
    case EvDecline => CancelKept(s.(dialog := None), env);
    case _ =>
  }

  /** Whatever is not an answer within the end moves nothing there, and opens it properly from outside. */
  lemma StepKept(s: State, e: Event, env: Env)
    requires Shape(s) && !(s.phase == END_SESSION && e.EvAnswer? && !e.cancel)
    ensures Kept(s, Step(s, e, env))
  {
    KeptSame(s, s);
    if EndsPhases(e) {
      PhaseEventKept(s, e, env);
    } else if !FromClient(e) {
      DialogEventKept(s, e, env);
    } else if e.EvAnswer? {
      AnswerKept(s, e.client, e.ok, e.last, e.cancel, env);
    } else if e.EvUninhibit? {
      RemoveInhibitorsKept(s, WithCookie(s, e.cookie), env);
    } else if e.EvClientGone? || e.EvBusNameLost? || e.EvBusLost? {
      LeaveKept(s, e, env);
    } else {
      JoinKept(s, e, env);
    }
  }

  // ----- whole runs -----

  /** A bystander's count of one end of session: who was told to go, and who answered, each as often as it happened. */
  datatype Round = Round(sent: multiset<ClientId>, heard: multiset<ClientId>)

  predicate Answers(s: State, e: Event) {
    e.EvAnswer? && !e.cancel && e.client in s.clients
  }

  function Observe(r: Round, s: State, e: Event, t: State): Round {
    if t.phase != END_SESSION || !(s.log <= t.log) then Round(multiset{}, multiset{})
    else if s.phase != END_SESSION then Round(Told(New(s, t)), multiset{})
    else Round(r.sent + Told(New(s, t)), r.heard + if Answers(s, e) then multiset{e.client} else multiset{})
  }

  /** Everybody who was told to go has answered or is on the manager's list. */
  predicate RoundOk(r: Round, s: State) {
    s.phase == END_SESSION ==> r.sent <= multiset(s.query) + r.heard
  }

  /** Within the end, somebody is told something only in a last round, and only when all before have answered. */
  predicate InRounds(r: Round, s: State, e: Event, t: State) {
    && s.log <= t.log
    && (s.phase == END_SESSION && t.phase == END_SESSION ==>
          && t.phaseTimer == s.phaseTimer
          && OnlyLast(New(s, t))
          && (Told(New(s, t)) != multiset{} ==> Answers(s, e) && r.sent <= r.heard + multiset{e.client}))
  }

  lemma Balance(sent: multiset<ClientId>, told: multiset<ClientId>, due: multiset<ClientId>,
                left: multiset<ClientId>, heard: multiset<ClientId>, x: multiset<ClientId>)
    requires sent <= due + heard && told + due <= left + x
    ensures sent + told <= left + (heard + x)
  {
    forall c: ClientId
      ensures (sent + told)[c] <= (left + (heard + x))[c]
    {
      assert sent[c] <= (due + heard)[c] && (told + due)[c] <= (left + x)[c];
    }
  }

  lemma HeardStep(r: Round, s: State, e: Event, t: State)
    requires s.phase == END_SESSION && RoundOk(r, s) && Answers(s, e) && Heard(s, t, e.client)
    ensures RoundOk(Observe(r, s, e, t), t) && InRounds(r, s, e, t)
  {
    if t.phase == END_SESSION {
      Balance(r.sent, Told(New(s, t)), multiset(s.query), multiset(t.query), r.heard, multiset{e.client});
    }
  }

  lemma KeptStep(r: Round, s: State, e: Event, t: State)
    requires RoundOk(r, s) && Kept(s, t) && !(s.phase == END_SESSION && t.phase == END_SESSION && Answers(s, e))
    ensures RoundOk(Observe(r, s, e, t), t) && InRounds(r, s, e, t)
  {
    if s.phase == END_SESSION && t.phase == END_SESSION {
      ToldNobody(New(s, t));
      assert r.heard + multiset{} == r.heard && r.sent + multiset{} == r.sent;
    }
  }

  lemma RoundStep(r: Round, s: State, e: Event, env: Env)
    requires Inv(s) && RoundOk(r, s)
    ensures var t := Step(s, e, env); RoundOk(Observe(r, s, e, t), t) && InRounds(r, s, e, t)
  {
    var t := Step(s, e, env);
    if s.phase == END_SESSION && e.EvAnswer? && !e.cancel {
      if e.client in s.clients {
        EndAnswerHeard(s, e.client, e.ok, e.last, env);
        assert t == Answer(s, e.client, e.ok, e.last, false, env);
        HeardStep(r, s, e, t);
      } else {
        assert t == s;
        KeptSame(s, t);
        KeptStep(r, s, e, t);
      }
    } else {
      StepKept(s, e, env);
      KeptStep(r, s, e, t);
    }
  }

  ghost function Count(s: State, es: seq<(Event, Env)>): Round {
    if es == [] then Round(multiset{}, multiset{})
    else Observe(Count(s, es[..|es| - 1]), Run(s, es[..|es| - 1]), es[|es| - 1].0, Run(s, es))
  }

  lemma {:induction false} CountOk(apps: map<App, AppInfo>, idleCounter: bool, es: seq<(Event, Env)>)
    requires PossibleRun(Initial(apps, idleCounter), es)
    ensures RoundOk(Count(Initial(apps, idleCounter), es), Run(Initial(apps, idleCounter), es))
  {
    if es != [] {
      var s := Initial(apps, idleCounter);
      var before := es[..|es| - 1];
      CountOk(apps, idleCounter, before);
      RunInv(apps, idleCounter, before);
      RoundStep(Count(s, before), Run(s, before), es[|es| - 1].0, es[|es| - 1].1);
    }
  }

  /**
   On every run: once the session ends, further messages to end go out only in
   a last round, and only when everybody told before, in whatever round, has
   answered as often as it was told.
   */
  lemma RoundsInOrder(apps: map<App, AppInfo>, idleCounter: bool, es: seq<(Event, Env)>, e: Event, env: Env)
    requires PossibleRun(Initial(apps, idleCounter), es)
    ensures var s := Run(Initial(apps, idleCounter), es);
            InRounds(Count(Initial(apps, idleCounter), es), s, e, Step(s, e, env))
  {
    CountOk(apps, idleCounter, es);
    RunInv(apps, idleCounter, es);
    RoundStep(Count(Initial(apps, idleCounter), es), Run(Initial(apps, idleCounter), es), e, env);
  }

  /**
   However many rounds there are, the deadline set when the end began stands,
   and it ends the session.
   */
  lemma {:induction false} OneDeadline(apps: map<App, AppInfo>, idleCounter: bool, es: seq<(Event, Env)>, k: nat, env: Env)
    requires PossibleRun(Initial(apps, idleCounter), es) && k <= |es|
    requires forall j | k <= j <= |es| :: Run(Initial(apps, idleCounter), es[..j]).phase == END_SESSION
    ensures var s := Run(Initial(apps, idleCounter), es);
            && s.phaseTimer == Run(Initial(apps, idleCounter), es[..k]).phaseTimer
            && s.phaseTimer != 0 && PhaseTimeout(s, env).phase == EXIT
  {
    var s0 := Initial(apps, idleCounter);
    var s := Run(s0, es);
    RunInv(apps, idleCounter, es);
    assert es[..|es|] == es;
    EndPhaseFrame(s.(phaseTimer := 0), env);
    if k < |es| {
      var n := |es| - 1;
      var before := es[..n];
      forall j | k <= j <= n
        ensures Run(s0, before[..j]).phase == END_SESSION
      {
        assert before[..j] == es[..j];
      }
      OneDeadline(apps, idleCounter, before, k, env);
      assert before[..k] == es[..k];
      RoundsInOrder(apps, idleCounter, before, es[n].0, es[n].1);
    }
  }

  // ----- when an answer lets the session exit -----

  /** Nothing is waited for any longer once this answer is in. */
  predicate LastWord(s: State, c: ClientId, ok: bool, last: bool) {
    && RemoveFirst(s.query, c) == [] && s.next == [] && !last
    && (ok || s.mode == Force)
    && !Inhibited(s.inhibitors - JitsOf(s, c), FlagLogout)
  }

  /**
   An answer ends the session exactly when it was the last word, or when it
   takes the last row out of a logout dialog that is still up from the query.
   */
  lemma AnswerExitsExactlyWhen(s: State, c: ClientId, ok: bool, last: bool, env: Env)
    requires Inv(s) && s.phase == END_SESSION
    ensures Answer(s, c, ok, last, false, env).phase == EXIT <==>
              LastWord(s, c, ok, last) || ((ok || s.mode == Force) && Forces(s, JitsOf(s, c)))
  {
    var t := s.(query := RemoveFirst(s.query, c));
    assert JitsOf(t, c) == JitsOf(s, c);
    if !ok && t.mode != Force {
      var u := AddJit(t, c, env);
      assert FlagLogout in u.inhibitors[t.nextInhibitor].flags;
      assert Inhibited(u.inhibitors, FlagLogout);
    } else {
      var u := RemoveInhibitors(t, JitsOf(t, c), env);
      RemoveInhibitorsPhase(t, JitsOf(t, c), env);
      RemoveInhibitorsFrame(t, JitsOf(t, c), env);
      assert Forces(t, JitsOf(t, c)) <==> Forces(s, JitsOf(s, c));
      EndPhaseFrame(u, env);
    }
  }

  /** So, with no such dialog up, the session exits only when both lists are empty and nothing inhibits logout. */
  lemma AnswerExitsInOrder(s: State, c: ClientId, ok: bool, last: bool, env: Env)
    requires Inv(s) && s.phase == END_SESSION && (s.dialog.Some? ==> !EndsSession(s.dialog.value.action))
    requires Answer(s, c, ok, last, false, env).phase == EXIT
    ensures RemoveFirst(s.query, c) == [] && s.next == [] && !last
    ensures !Inhibited(Answer(s, c, ok, last, false, env).inhibitors, FlagLogout)
  {
    AnswerExitsExactlyWhen(s, c, ok, last, env);
    var t := s.(query := RemoveFirst(s.query, c));
    assert JitsOf(t, c) == JitsOf(s, c);
    RemoveInhibitorsFrame(t, JitsOf(t, c), env);
    AfterAnswerFrame(RemoveInhibitors(t, JitsOf(t, c), env), c, last, env);
  }
}
