/** Short runs that show where the session manager falls short of its design. */
module SessionExamples {
  import opened Wrappers
  import opened Session
  import opened CookieSupply
  import opened SessionInvariant
  import opened SessionFrames
  import opened SessionLiveness

  const VISITOR := Client(Some(":2"), "one", "app", false)

  function Draw(k: nat): nat {
    k % MAX_COOKIE + 1
  }

  /** A quiet outside world, where these clients are walked and can be reached. */
  function Quiet(order: seq<ClientId>): Env {
    var all := set c | c in order;
    Env(order, all, all, all, {}, false, false, false, false, false, Draw, "id")
  }

  lemma DrawIsFair()
    ensures Fair(Draw)
  {
    forall cookie: nat | 1 <= cookie <= MAX_COOKIE
      ensures Drawn(Draw, cookie)
    {
      assert Draw(cookie - 1) == cookie;
    }
  }

  /** The states that some run of the session reaches, without applications. */
  ghost predicate Reached(s: State) {
    exists es :: PossibleRun(Initial(map[], false), es) && Run(Initial(map[], false), es) == s
  }

  lemma RunOneMore(s: State, es: seq<(Event, Env)>, e: Event, env: Env)
    requires PossibleRun(s, es) && Possible(Run(s, es), e, env)
    ensures PossibleRun(s, es + [(e, env)]) && Run(s, es + [(e, env)]) == Step(Run(s, es), e, env)
  {
    var more := es + [(e, env)];
    assert more[..|more| - 1] == es;
  }

  lemma OneMore(s: State, e: Event, env: Env)
    requires Reached(s) && Possible(s, e, env)
    ensures Reached(Step(s, e, env))
  {
    var es :| PossibleRun(Initial(map[], false), es) && Run(Initial(map[], false), es) == s;
    RunOneMore(Initial(map[], false), es, e, env);
  }

  /** With no applications to wait for, the session comes up at once. */
  lemma {:induction false} BareStartup(s: State, env: Env)
    requires s.apps == map[] && INITIALIZATION <= s.phase <= RUNNING
    ensures var t := StartPhase(s, env); SameStores(s, t) && t.phase == RUNNING
    decreases RUNNING - s.phase
  {
    StartPhaseFrame(s, env);
    if s.phase < RUNNING {
      var t := Begin(s, env);
      assert t.pending == {};
      BeginFrame(s, env);
      assert StartPhase(s, env) == StartPhase(Advance(Finish(t, env)), env);
      BareStartup(Advance(Finish(t, env)), env);
    }
  }

  /** Nothing here strains the identifiers or the walk over the clients. */
  predicate Calm(s: State) {
    |s.inhibitors| + |s.query| <= 5 && !Taken(s, "id") && forall c | c in s.clients :: c == 0
  }

  /** What a set of states needs to hold all that is reached in a quiet world. */
  ghost predicate Closed(r: State -> bool) {
    && r(Initial(map[], false))
    && forall s, e | r(s) && Calm(s) :: r(Step(s, e, Quiet([0])))
  }

  lemma ReachedIsClosed()
    ensures Closed(s => Reached(s))
  {
    var s0 := Initial(map[], false);
    assert PossibleRun(s0, []) && Run(s0, []) == s0;
    DrawIsFair();
    forall s, e | Reached(s) && Calm(s)
      ensures Reached(Step(s, e, Quiet([0])))
    {
      OneMore(s, e, Quiet([0]));
    }
  }

  lemma Calmly(r: State -> bool, s: State, e: Event, t: State)
    requires Closed(r) && r(s) && Calm(s) && t == Step(s, e, Quiet([0]))
    ensures r(t)
  {
  }

  lemma StartsCalm(s: State)
    requires s == Initial(map[], false)
    ensures Start(s, Quiet([0])).query == []
  {
    InitialInv(map[], false);
    StartInv(s, Quiet([0]));
    BareStartup(s.(phase := INITIALIZATION), Quiet([0]));
  }

  lemma Started(r: State -> bool) returns (s: State)
    requires Closed(r)
    ensures r(s) && s.query == [] && s.phase == RUNNING && SameStores(Initial(map[], false), s)
  {
    var s0 := Initial(map[], false);
    BareStartup(s0.(phase := INITIALIZATION), Quiet([0]));
    s := Start(s0, Quiet([0]));
    Calmly(r, s0, EvStart, s);
    StartsCalm(s0);
  }

  lemma Connected(r: State -> bool) returns (s: State)
    requires Closed(r)
    ensures r(s) && s.phase == RUNNING && s.mode == Normal && s.dialog.None?
    ensures s.clients == map[0 := VISITOR] && s.inhibitors == map[] && s.nextInhibitor == 0 && s.query == []
  {
    var s1 := Started(r);
    s := RegisterDBus(s1, "one", "app", ":2", None, Quiet([0]));
    Calmly(r, s1, EvRegisterDBus("one", "app", ":2", None), s);
  }

  /** One inhibitor, one client, and nothing else going on. */
  predicate Still(s: State, flags: set<Flag>) {
    && s.phase == RUNNING && s.mode == Normal && s.dialog.None? && Calm(s)
    && s.clients == map[0 := VISITOR]
    && s.inhibitors.Keys == {0} && s.nextInhibitor == 1
    && s.inhibitors[0].flags == flags && s.inhibitors[0].client.None?
  }

  lemma Inhibited1(s: State, flags: set<Flag>)
    requires s.mode == Normal && s.dialog.None? && s.inhibitors == map[] && s.nextInhibitor == 0 && flags != {}
    ensures var t := Inhibit(s, "app", "reason", flags, ":1", Quiet([0]));
            && t == s.(inhibitors := t.inhibitors, nextInhibitor := 1, presence := t.presence)
            && t.inhibitors.Keys == {0} && t.inhibitors[0].flags == flags && t.inhibitors[0].client.None?
  {
  }

  lemma Inhibiting(r: State -> bool, flags: set<Flag>) returns (s: State)
    requires Closed(r) && flags != {}
    ensures r(s) && Still(s, flags)
  {
    var s1 := Connected(r);
    Inhibited1(s1, flags);
    s := Inhibit(s1, "app", "reason", flags, ":1", Quiet([0]));
    Calmly(r, s1, EvInhibit("app", "reason", flags, ":1"), s);
    assert |s.inhibitors| == |s.inhibitors.Keys| == 1;
  }

  lemma SleepRefused(s: State)
    requires Still(s, {FlagLogout, FlagSuspend})
    ensures Step(s, EvSleep(ActSleep), Quiet([0])) == s.(dialog := Some(Dialog(ActSleep, {0})))
  {
    assert FlagSuspend in s.inhibitors[0].flags;
  }

  /** A logout has begun; client 0 has been asked and has not answered. */
  predicate Querying(s: State, dialog: Option<Dialog>, inhibitors: map<InhibitorId, Inhibitor>) {
    && s.phase == QUERY_END_SESSION && s.mode == NoConfirmation && s.ending == Logout
    && s.query == [0] && s.queryTimer != 0 && s.dialog == dialog && s.inhibitors == inhibitors && s.nextInhibitor == 1
    && s.clients == map[0 := VISITOR]
  }

  lemma LogoutBegins(s: State, env: Env)
    requires s.phase == RUNNING && s.clients == map[0 := VISITOR]
    requires s.nextInhibitor == 1 && env == Quiet([0])
    ensures Querying(RequestLogout(s, NoConfirmation, env), s.dialog, s.inhibitors)
  {
    var t := s.(mode := NoConfirmation, ending := Logout);
    assert EndPhase(t, env) == StartPhase(Advance(Finish(t, env)), env);
    assert StartPhase(Advance(Finish(t, env)), env) == Begin(Advance(Finish(t, env)), env);
    assert Prepended([0], s.clients.Keys * env.queryOk) == [0];
  }

  lemma Asking(r: State -> bool, s: State) returns (t: State)
    requires Closed(r) && r(s) && Calm(s) && s.phase == RUNNING && s.clients == map[0 := VISITOR]
    requires |s.inhibitors| == 1 && s.nextInhibitor == 1
    ensures r(t) && Calm(t) && Querying(t, s.dialog, s.inhibitors)
  {
    LogoutBegins(s, Quiet([0]));
    t := RequestLogout(s, NoConfirmation, Quiet([0]));
    Calmly(r, s, EvLogout(NoConfirmation), t);
  }

  lemma SleepForgotten(r: State -> bool) returns (s: State)
    requires Closed(r)
    ensures r(s) && Calm(s) && s.phase == RUNNING && s.clients == map[0 := VISITOR]
    ensures s.inhibitors.Keys == {0} && s.inhibitors[0].client.None? && FlagLogout in s.inhibitors[0].flags
    ensures s.dialog == Some(Dialog(ActSleep, {0})) && s.nextInhibitor == 1
  {
    var s1 := Inhibiting(r, {FlagLogout, FlagSuspend});
    SleepRefused(s1);
    s := s1.(dialog := Some(Dialog(ActSleep, {0})));
    Calmly(r, s1, EvSleep(ActSleep), s);
  }

  lemma AnswerMeetsDialog(s: State, inhibitors: map<InhibitorId, Inhibitor>)
    requires Querying(s, Some(Dialog(ActSleep, {0})), inhibitors)
    requires inhibitors.Keys == {0} && inhibitors[0].client.None? && FlagLogout in inhibitors[0].flags
    ensures Answer(s, 0, true, false, false, Quiet([0])) == s.(query := [], queryTimer := 0)
  {
    assert JitsOf(s, 0) == {};
    assert Inhibited(s.inhibitors, FlagLogout);
  }

  /**
   A user asks for suspend while something inhibits it, leaves the dialog up
   and logs out; when every client has agreed and the dialog is then declined,
   the session waits for nothing at all.
   */
  lemma ForgottenDialog() returns (s: State)
    ensures Reached(s) && Wedged(s)
  {
    var r := (s: State) => Reached(s);
    ReachedIsClosed();
    s := Hung(r);
  }

  lemma Hung(r: State -> bool) returns (s: State)
    requires Closed(r)
    ensures r(s) && Wedged(s)
  {
    var s1 := SleepForgotten(r);
    assert |s1.inhibitors| == |s1.inhibitors.Keys| == 1;
    var s2 := Asking(r, s1);
    AnswerMeetsDialog(s2, s1.inhibitors);
    var s3 := s2.(query := [], queryTimer := 0);
    Calmly(r, s2, EvAnswer(0, true, false, false), s3);
    s := s3.(dialog := None);
    Calmly(r, s3, EvDecline, s);
  }

  // ----- a dialog that outlives its question -----

  lemma RefusalOpensDialog(s: State, inhibitors: map<InhibitorId, Inhibitor>)
    requires Querying(s, None, inhibitors) && inhibitors.Keys == {0}
    ensures var t := Answer(s, 0, false, false, false, Quiet([0]));
            && t == s.(query := [], queryTimer := 0, inhibitors := t.inhibitors, nextInhibitor := 2,
                       presence := t.presence, dialog := Some(Dialog(ActLogout, {0, 1})))
            && t.inhibitors.Keys == {0, 1} && t.inhibitors[0] == inhibitors[0] && t.inhibitors[1].client == Some(0)
            && t.inhibitors[1].flags == {FlagLogout}
  {
    var u := AddJit(s.(query := []), 0, Quiet([0]));
    assert FlagLogout in u.inhibitors[1].flags;
    assert Inhibited(u.inhibitors, FlagLogout);
    assert u.inhibitors.Keys == {0, 1};
    assert RemoveFirst(s.query, 0) == [];
    assert Answer(s, 0, false, false, false, Quiet([0])) == AfterAnswer(u, 0, false, Quiet([0]));
  }

  /** Client 0 has refused, and the user is asked. */
  predicate Refused(s: State) {
    && s.phase == QUERY_END_SESSION && s.mode == NoConfirmation && s.query == []
    && s.clients == map[0 := VISITOR] && s.inhibitors.Keys == {0, 1}
    && s.inhibitors[0].client.None? && s.inhibitors[0].flags == {FlagIdle}
    && s.inhibitors[1].client == Some(0) && s.dialog == Some(Dialog(ActLogout, {0, 1}))
  }

  /** Client 0 has taken its refusal back, and the dialog that asked about it is still up. */
  lemma AgreementLeavesDialog(s: State)
    requires Refused(s)
    ensures var t := Answer(s, 0, true, false, false, Quiet([0]));
            && t.phase == END_SESSION && t.mode == NoConfirmation && t.query == [0] && t.phaseTimer != 0
            && t.dialog == Some(Dialog(ActLogout, {0})) && t.inhibitors == s.inhibitors - {1} && t.clients == s.clients
  {
    var env := Quiet([0]);
    assert JitsOf(s, 0) == {1};
    assert {0, 1} - {1} == {0};
    var u := RemoveInhibitors(s, {1}, env);
    assert u.inhibitors.Keys == {0} && u.dialog == Some(Dialog(ActLogout, {0})) && !Inhibited(u.inhibitors, FlagLogout);
    assert Answer(s, 0, true, false, false, env) == AfterAnswer(u, 0, false, env);
    var q := u.(queryTimer := 0);
    assert AfterAnswer(u, 0, false, env) == EndPhase(q, env);
    assert EndPhase(q, env) == StartPhase(Advance(Finish(q, env)), env);
    assert 0 in q.clients;
    assert StartPhase(Advance(Finish(q, env)), env) == Begin(Advance(Finish(q, env)), env);
    assert Prepended([0], s.clients.Keys * env.endOk) == [0];
  }

  lemma LastRowEndsSession(s: State, cookie: nat)
    requires s.phase == END_SESSION && s.inhibitors.Keys == {0} && s.inhibitors[0].cookie == cookie
    requires s.dialog == Some(Dialog(ActLogout, {0}))
    ensures Uninhibit(s, cookie, Quiet([0])).phase == EXIT
  {
    var env := Quiet([0]);
    assert WithCookie(s, cookie) == {0};
    RemoveInhibitorsPhase(s, {0}, env);
  }

  lemma Refusing(r: State -> bool) returns (s: State)
    requires Closed(r)
    ensures r(s) && Refused(s)
  {
    var s1 := Inhibiting(r, {FlagIdle});
    var s2 := Asking(r, s1);
    RefusalOpensDialog(s2, s1.inhibitors);
    s := Answer(s2, 0, false, false, false, Quiet([0]));
    Calmly(r, s2, EvAnswer(0, false, false, false), s);
  }

  lemma Outlived(r: State -> bool) returns (s: State, cookie: nat)
    requires Closed(r)
    ensures r(s) && s.phase == END_SESSION && s.mode != Force && s.query == [0] && s.phaseTimer != 0
    ensures !Inhibited(s.inhibitors, FlagLogout) && Uninhibit(s, cookie, Quiet([0])).phase == EXIT
  {
    var s3 := Refusing(r);
    assert |s3.inhibitors| == |s3.inhibitors.Keys| == 2;
    AgreementLeavesDialog(s3);
    s := Answer(s3, 0, true, false, false, Quiet([0]));
    Calmly(r, s3, EvAnswer(0, true, false, false), s);
    cookie := s.inhibitors[0].cookie;
    LastRowEndsSession(s, cookie);
  }

  /**
   A refusal opens the logout dialog; the client gives in, so the session moves
   on, but the dialog stays because something else, that only keeps the screen
   from going idle, is still listed. Once that goes too, the forgotten dialog
   accepts itself and the session exits before the client has answered.
   */
  lemma StaleDialog() returns (s: State, cookie: nat)
    ensures Reached(s) && s.phase == END_SESSION && s.mode != Force && s.query == [0] && s.phaseTimer != 0
    ensures !Inhibited(s.inhibitors, FlagLogout) && Uninhibit(s, cookie, Quiet([0])).phase == EXIT
  {
    var r := (s: State) => Reached(s);
    ReachedIsClosed();
    s, cookie := Outlived(r);
  }
}
