/**
 The vote on ending the session. Unless the user forces it, the session moves
 on only when every client it asked has agreed, has gone, or had its refusal
 lifted by an explicit Uninhibit; and no inhibitor of logout is left.
 */
module SessionVote {
  import opened Wrappers
  import opened Session
  import opened CookieSupply
  import opened SessionInvariant
  import opened SessionFrames
  import SessionMessages

  // ----- what a bystander sees -----

  /** Built from events and messages alone, without looking at the manager's lists. */
  datatype Ballot = Ballot(asked: set<ClientId>, agreed: set<ClientId>, gone: set<ClientId>, lifted: set<ClientId>)

  function Excused(b: Ballot): set<ClientId> {
    b.agreed + b.gone + b.lifted
  }

  /** Clients that a query message was delivered to. */
  function Asked(messages: seq<Message>): set<ClientId> {
    set m | m in messages && m.Send? && m.notice.AskQuery? :: m.to
  }

  function LiftedBy(s: State, e: Event): set<ClientId> {
    if e.EvUninhibit? then
      set i | i in WithCookie(s, e.cookie) && s.inhibitors[i].client.Some? :: s.inhibitors[i].client.value
    else {}
  }

  function Heard(b: Ballot, s: State, e: Event): Ballot {
    if e.EvAnswer? && !e.cancel && e.client in s.clients && s.phase >= QUERY_END_SESSION then
      if e.ok then b.(agreed := b.agreed + {e.client})
      else b.(agreed := b.agreed - {e.client}, lifted := b.lifted - {e.client})
    else b
  }

  function Observe(b: Ballot, s: State, e: Event, t: State): Ballot {
    if s.phase < QUERY_END_SESSION <= t.phase && s.log <= t.log then Ballot(Asked(t.log[|s.log|..]), {}, {}, {})
    else
      var h := Heard(b, s, e);
      h.(gone := h.gone + (s.clients.Keys - t.clients.Keys), lifted := h.lifted + LiftedBy(s, e))
  }

  // ----- the invariant of the vote -----

  predicate HasJit(inhibitors: map<InhibitorId, Inhibitor>, c: ClientId) {
    exists i :: i in inhibitors && inhibitors[i].client == Some(c)
  }

  /** Whoever was asked still owes an answer, is excused, or holds a just-in-time inhibitor. */
  predicate Voted(s: State, asked: set<ClientId>, excused: set<ClientId>) {
    s.phase == QUERY_END_SESSION && s.mode != Force ==>
      forall c | c in asked :: c in s.query || c in excused || HasJit(s.inhibitors, c)
  }

  /** A query that ends without force ends with everybody excused and logout uninhibited. */
  predicate Passed(s: State, t: State, asked: set<ClientId>, excused: set<ClientId>) {
    s.phase == QUERY_END_SESSION && t.phase > QUERY_END_SESSION && t.mode != Force ==>
      && asked <= excused
      && (Inhibited(t.inhibitors, FlagLogout) ==> t.clients == map[])
  }

  // ----- each step of a handler -----

  lemma AfterAnswerVote(s: State, c: ClientId, last: bool, env: Env, asked: set<ClientId>, excused: set<ClientId>)
    requires Inv(s) && Voted(s, asked, excused)
    ensures var t := AfterAnswer(s, c, last, env);
            Voted(t, asked, excused) && Passed(s, t, asked, excused)
  {
    AfterAnswerFrame(s, c, last, env);
    if s.phase == QUERY_END_SESSION && s.query == [] {
      var q := s.(queryTimer := 0);
      if !Inhibited(q.inhibitors, FlagLogout) {
        EndPhaseFrame(q, env);
        assert forall x | HasJit(s.inhibitors, x) :: Inhibited(s.inhibitors, FlagLogout);
      }
    }
  }

  lemma RemoveVote(s: State, gone: set<InhibitorId>, env: Env, asked: set<ClientId>, excused: set<ClientId>)
    requires Inv(s) && Voted(s, asked, excused)
    requires forall i | i in gone && i in s.inhibitors && s.inhibitors[i].client.Some? ::
               s.inhibitors[i].client.value in asked ==> s.inhibitors[i].client.value in excused
    ensures var t := RemoveInhibitors(s, gone, env);
            Voted(t, asked, excused) && Passed(s, t, asked, excused)
  {
    var t := RemoveInhibitors(s, gone, env);
    RemoveInhibitorsFrame(s, gone, env);
    RemoveInhibitorsPhase(s, gone, env);
    if t.phase == QUERY_END_SESSION && t.mode != Force {
      forall c | c in asked && HasJit(s.inhibitors, c) && c !in excused
        ensures HasJit(t.inhibitors, c)
      {
        var i :| i in s.inhibitors && s.inhibitors[i].client == Some(c);
        assert i in t.inhibitors && t.inhibitors[i] == s.inhibitors[i];
      }
    }
  }

  lemma RefusalVote(s: State, c: ClientId, last: bool, env: Env, asked: set<ClientId>, excused: set<ClientId>)
    requires Inv(s) && s.phase >= QUERY_END_SESSION && s.mode != Force && c < s.nextClient && Voted(s, asked, excused)
    requires Fair(env.random) && |s.inhibitors| < MAX_COOKIE
    ensures var t := Answer(s, c, false, last, false, env);
            Voted(t, asked, excused - {c}) && Passed(s, t, asked, excused - {c})
  {
    RemoveFirstWithin(s.query, c);
    QueryShrinksInv(s, c);
    var t := s.(query := RemoveFirst(s.query, c));
    AddJitSettled(t, c, env);
    var u := AddJit(t, c, env);
    assert HasJit(u.inhibitors, c) by {
      assert u.inhibitors[t.nextInhibitor].client == Some(c);
    }
    forall d: ClientId | HasJit(t.inhibitors, d)
      ensures HasJit(u.inhibitors, d)
    {
      var i :| i in t.inhibitors && t.inhibitors[i].client == Some(d);
      assert i in u.inhibitors && u.inhibitors[i] == t.inhibitors[i];
    }
    assert Voted(u, asked, excused - {c});
    AfterAnswerVote(u, c, last, env, asked, excused - {c});
  }

  lemma AgreementVote(s: State, c: ClientId, last: bool, env: Env, asked: set<ClientId>, excused: set<ClientId>)
    requires Inv(s) && s.phase >= QUERY_END_SESSION && c < s.nextClient && Voted(s, asked, excused)
    ensures var t := Answer(s, c, true, last, false, env);
            Voted(t, asked, excused + {c}) && Passed(s, t, asked, excused + {c})
  {
    RemoveFirstWithin(s.query, c);
    QueryShrinksInv(s, c);
    var t := s.(query := RemoveFirst(s.query, c));
    var u := RemoveInhibitors(t, JitsOf(t, c), env);
    RemoveInhibitorsInv(t, JitsOf(t, c), env);
    RemoveInhibitorsPhase(t, JitsOf(t, c), env);
    AfterAnswerFrame(u, c, last, env);
    assert Voted(t, asked, excused + {c});
    RemoveVote(t, JitsOf(t, c), env, asked, excused + {c});
    AfterAnswerVote(u, c, last, env, asked, excused + {c});
  }

  lemma AnswerVote(s: State, c: ClientId, ok: bool, last: bool, env: Env, asked: set<ClientId>, excused: set<ClientId>)
    requires Inv(s) && s.phase >= QUERY_END_SESSION && c < s.nextClient && Voted(s, asked, excused)
    requires Fair(env.random) && |s.inhibitors| < MAX_COOKIE
    ensures var t := Answer(s, c, ok, last, false, env);
            var x := if ok then excused + {c} else excused - {c};
            Voted(t, asked, x) && Passed(s, t, asked, x)
  {
    if ok {
      AgreementVote(s, c, last, env, asked, excused);
    } else if s.mode == Force {
      ForcedAnswer(s, c, ok, last, env);
    } else {
      RefusalVote(s, c, last, env, asked, excused);
    }
  }


  lemma DropVote(s: State, c: ClientId, env: Env, asked: set<ClientId>, excused: set<ClientId>)
    requires Inv(s) && c < s.nextClient && Voted(s, asked, excused)
    ensures Voted(Drop(s, c, env), asked, excused + {c}) && Passed(s, Drop(s, c, env), asked, excused + {c})
  {
    var t := RemoveInhibitors(s, JitsOf(s, c), env);
    assert Voted(s, asked, excused + {c});
    RemoveVote(s, JitsOf(s, c), env, asked, excused + {c});
    RemoveInhibitorsInv(s, JitsOf(s, c), env);
    RemoveInhibitorsPhase(s, JitsOf(s, c), env);
    RemoveInhibitorsFrame(s, JitsOf(s, c), env);
    if t.phase == QUERY_END_SESSION {
      AgreementVote(t, c, false, env, asked, excused + {c});
      AgreementFrame(t, c, false, env);
      assert excused + {c} + {c} == excused + {c};
    }
  }

  lemma PassedOnward(s: State, t: State, u: State, asked: set<ClientId>, x: set<ClientId>, y: set<ClientId>)
    requires Passed(s, t, asked, x) && Passed(t, u, asked, y) && Onward(s, t) && Onward(t, u) && x <= y
    ensures Passed(s, u, asked, y)
  {
    if s.phase == QUERY_END_SESSION && u.phase > QUERY_END_SESSION && u.mode != Force && t.phase > QUERY_END_SESSION {
      if i :| i in u.inhibitors && FlagLogout in u.inhibitors[i].flags {
        assert i in t.inhibitors && t.inhibitors[i] == u.inhibitors[i];
      }
    }
  }

  lemma DropNextVote(s: State, t: State, c: ClientId, env: Env, asked: set<ClientId>, excused: set<ClientId>)
    requires Inv(t) && c in t.clients && Onward(s, t)
    requires var x := excused + (s.clients.Keys - t.clients.Keys); Voted(t, asked, x) && Passed(s, t, asked, x)
    ensures var u := Drop(t, c, env);
            var x := excused + (s.clients.Keys - u.clients.Keys);
            Onward(s, u) && Voted(u, asked, x) && Passed(s, u, asked, x) && u.clients == t.clients - {c}
  {
    var u := Drop(t, c, env);
    var x := excused + (s.clients.Keys - t.clients.Keys);
    DropVote(t, c, env, asked, x);
    DropFrame(t, c, env);
    OnwardTransitive(s, t, u);
    assert x + {c} == excused + (s.clients.Keys - u.clients.Keys);
    PassedOnward(s, t, u, asked, x, x + {c});
  }

  lemma NobodyDroppedVote(s: State, asked: set<ClientId>, excused: set<ClientId>)
    requires Voted(s, asked, excused)
    ensures var x := excused + (s.clients.Keys - s.clients.Keys);
            Onward(s, s) && Voted(s, asked, x) && Passed(s, s, asked, x)
  {
    OnwardSelf(s);
    assert excused + (s.clients.Keys - s.clients.Keys) == excused;
  }

  /** Of the list, nobody on the bus and of that name is left. */
  lemma {:induction false} DropAllMissesNone(s: State, list: seq<ClientId>, name: Option<string>, env: Env)
    ensures var t := DropAll(s, list, name, env);
            forall c | c in list && c in t.clients && t.clients[c].bus.Some? :: name.Some? && t.clients[c].bus != name
  {
    if list != [] {
      var k := |list| - 1;
      DropAllMissesNone(s, list[..k], name, env);
      DropFrame(DropAll(s, list[..k], name, env), list[k], env);
      assert list == list[..k] + [list[k]];
    }
  }

  /** Dropping clients one by one excuses exactly those dropped, and misses none of the list. */
  lemma {:induction false} DropAllVote(s: State, list: seq<ClientId>, name: Option<string>, env: Env,
                                       asked: set<ClientId>, excused: set<ClientId>)
    requires Inv(s) && Voted(s, asked, excused)
    ensures var t := DropAll(s, list, name, env);
            var x := excused + (s.clients.Keys - t.clients.Keys);
            Onward(s, t) && Voted(t, asked, x) && Passed(s, t, asked, x)
    ensures var t := DropAll(s, list, name, env);
            forall c | c in list && c in t.clients && t.clients[c].bus.Some? :: name.Some? && t.clients[c].bus != name
  {
    if list == [] {
      NobodyDroppedVote(s, asked, excused);
    } else {
      var k := |list| - 1;
      var t := DropAll(s, list[..k], name, env);
      DropAllInv(s, list[..k], name, env);
      DropAllVote(s, list[..k], name, env, asked, excused);
      if DropAll(s, list, name, env) != t {
        DropNextVote(s, t, list[k], env, asked, excused);
      }
    }
    DropAllMissesNone(s, list, name, env);
  }

  lemma ExitIfEmptyVote(s: State, env: Env, asked: set<ClientId>, excused: set<ClientId>)
    requires Voted(s, asked, excused)
    requires s.phase == QUERY_END_SESSION ==> asked <= s.clients.Keys + excused
    ensures var t := ExitIfEmpty(s, env);
            Onward(s, t) && Voted(t, asked, excused) && Passed(s, t, asked, excused)
  {
    EndPhaseFrame(s, env);
    if s.clients == map[] {
      assert s.clients.Keys == {};
    }
    assert s.inhibitors == s.inhibitors - (s.inhibitors.Keys - s.inhibitors.Keys);
    assert s.clients == s.clients - (s.clients.Keys - s.clients.Keys);
  }

  // ----- each event -----

  /** What the bystander's notes have to do with the manager's state. */
  predicate BallotOk(b: Ballot, s: State) {
    s.phase == QUERY_END_SESSION ==>
      b.asked <= s.clients.Keys + Excused(b) && Voted(s, b.asked, Excused(b))
  }

  predicate VoteKept(b: Ballot, s: State, e: Event, t: State) {
    var c := Observe(b, s, e, t);
    BallotOk(c, t) && Passed(s, t, c.asked, Excused(c))
  }

  /** One more just-in-time inhibitor, and none lost. */
  lemma AddJitHolds(s: State, c: ClientId, env: Env, d: ClientId)
    requires Settled(s) && (HasJit(s.inhibitors, d) || d == c)
    ensures HasJit(AddJit(s, c, env).inhibitors, d)
  {
    var u := AddJit(s, c, env);
    if d == c {
      assert u.inhibitors[s.nextInhibitor].client == Some(c);
    } else {
      var i :| i in s.inhibitors && s.inhibitors[i].client == Some(d);
      assert i in u.inhibitors && u.inhibitors[i] == s.inhibitors[i];
    }
  }

  lemma {:induction false} AddJitsHolds(s: State, list: seq<ClientId>, env: Env, d: ClientId)
    requires Settled(s) && s.phase >= QUERY_END_SESSION && Listed(list, s.nextClient)
    requires Fair(env.random) && |s.inhibitors| + |list| <= MAX_COOKIE
    requires HasJit(s.inhibitors, d) || d in list
    ensures HasJit(AddJits(s, list, env).inhibitors, d)
  {
    if list != [] {
      var k := |list| - 1;
      AddJitsSettled(s, list[..k], env);
      assert list == list[..k] + [list[k]];
      if HasJit(s.inhibitors, d) || d in list[..k] {
        AddJitsHolds(s, list[..k], env, d);
      }
      AddJitHolds(AddJits(s, list[..k], env), list[k], env, d);
    }
  }

  lemma QueryCompleteVote(s: State, env: Env, asked: set<ClientId>, excused: set<ClientId>)
    requires s.phase == QUERY_END_SESSION && s.query == [] && Voted(s, asked, excused)
    requires JitsOk(s.inhibitors, s.clients, s.nextClient)
    ensures var t := QueryComplete(s, env);
            && t.clients == s.clients && t.phase >= s.phase && t.mode == s.mode
            && Voted(t, asked, excused) && Passed(s, t, asked, excused)
  {
    var q := s.(queryTimer := 0);
    if !Inhibited(q.inhibitors, FlagLogout) {
      EndPhaseFrame(q, env);
      assert forall x: ClientId | HasJit(s.inhibitors, x) :: Inhibited(s.inhibitors, FlagLogout);
    }
  }

  lemma QueryTimeoutVote(s: State, env: Env, asked: set<ClientId>, excused: set<ClientId>)
    requires Inv(s) && Voted(s, asked, excused)
    requires Fair(env.random) && |s.inhibitors| + |s.query| <= MAX_COOKIE
    ensures var t := QueryTimeout(s, env);
            t.clients == s.clients && t.phase >= s.phase && Voted(t, asked, excused) && Passed(s, t, asked, excused)
  {
    if s.queryTimer != 0 {
      var t := s.(queryTimer := 0);
      var u := if t.mode == Force then t else AddJits(t, t.query, env);
      if t.mode != Force {
        AddJitsSettled(t, t.query, env);
        forall d: ClientId | HasJit(t.inhibitors, d) || d in t.query
          ensures HasJit(u.inhibitors, d)
        {
          AddJitsHolds(t, t.query, env, d);
        }
      }
      assert u.clients == s.clients && u.phase == s.phase && u.mode == s.mode && Settled(u);
      assert Voted(u.(query := []), asked, excused);
      QueryCompleteVote(u.(query := []), env, asked, excused);
    }
  }

  /** The inhibitors of a bus name that is lost belong to the clients that are about to be dropped. */
  lemma OnBusVote(s: State, name: string, env: Env, asked: set<ClientId>, excused: set<ClientId>, there: set<ClientId>)
    requires Inv(s) && s.phase == QUERY_END_SESSION && Voted(s, asked, excused) && asked <= s.clients.Keys + excused
    requires there == set c | c in s.clients && s.clients[c].bus == Some(name)
    ensures var t := RemoveInhibitors(s, OnBus(s, name), env);
            && Inv(t) && Onward(s, t) && t.clients == s.clients
            && Voted(t, asked, excused + there) && Passed(s, t, asked, excused + there)
  {
    var t := RemoveInhibitors(s, OnBus(s, name), env);
    RemoveInhibitorsInv(s, OnBus(s, name), env);
    RemoveInhibitorsFrame(s, OnBus(s, name), env);
    RemoveInhibitorsPhase(s, OnBus(s, name), env);
    RemoveVote(s, OnBus(s, name), env, asked, excused + there);
    assert t.inhibitors == s.inhibitors - (s.inhibitors.Keys - t.inhibitors.Keys);
    assert t.clients == s.clients - (s.clients.Keys - t.clients.Keys);
  }

  /** The common end of the lemmas below: who is excused afterwards. */
  lemma KeptBy(b: Ballot, s: State, e: Event, t: State, x: set<ClientId>)
    requires s.phase == QUERY_END_SESSION && b.asked <= s.clients.Keys + Excused(b)
    requires Voted(t, b.asked, x) && Passed(s, t, b.asked, x) && x <= Excused(Observe(b, s, e, t))
    ensures VoteKept(b, s, e, t)
  {
    var c := Observe(b, s, e, t);
    assert s.clients.Keys - t.clients.Keys <= c.gone;
    if e.EvAnswer? && e.client in s.clients {
      assert Excused(b) - {e.client} <= Excused(c);
    } else {
      assert Excused(b) <= Excused(c);
    }
  }

  /** After a bus name is lost, none of its clients is left. */
  lemma OnBusDropped(s: State, t: State, u: State, name: string, order: seq<ClientId>,
                     x: set<ClientId>, there: set<ClientId>)
    requires there == set c | c in s.clients && s.clients[c].bus == Some(name)
    requires Walks(order, s.clients) && t.clients == s.clients && Onward(t, u)
    requires forall c | c in order && c in u.clients && u.clients[c].bus.Some? :: u.clients[c].bus != Some(name)
    ensures x + there + (t.clients.Keys - u.clients.Keys) == x + (s.clients.Keys - u.clients.Keys)
  {
    assert forall c | c in there :: c in order && c in t.clients;
    assert there !! u.clients.Keys;
  }

  lemma BusNameLostVote(b: Ballot, s: State, name: string, env: Env)
    requires Inv(s) && Walks(env.order, s.clients) && BallotOk(b, s) && s.phase == QUERY_END_SESSION && name != ""
    ensures VoteKept(b, s, EvBusNameLost(name), BusNameLost(s, name, env))
  {
    var t := RemoveInhibitors(s, OnBus(s, name), env);
    var there := set c | c in s.clients && s.clients[c].bus == Some(name);
    var x := Excused(b) + there;
    OnBusVote(s, name, env, b.asked, Excused(b), there);
    var u := DropAll(t, env.order, Some(name), env);
    DropAllVote(t, env.order, Some(name), env, b.asked, x);
    OnBusDropped(s, t, u, name, env.order, Excused(b), there);
    PassedOnward(s, t, u, b.asked, x, x + (t.clients.Keys - u.clients.Keys));
    OnwardTransitive(s, t, u);
    EmptiedVote(b, s, u, EvBusNameLost(name), env);
  }

  /** The last part of every disconnection: with no client left, the phase ends. */
  lemma EmptiedVote(b: Ballot, s: State, u: State, e: Event, env: Env)
    requires s.phase == QUERY_END_SESSION && b.asked <= s.clients.Keys + Excused(b)
    requires e.EvBusNameLost? || e.EvBusLost? || e.EvClientGone?
    requires var y := Excused(b) + (s.clients.Keys - u.clients.Keys);
             Onward(s, u) && Voted(u, b.asked, y) && Passed(s, u, b.asked, y)
    ensures VoteKept(b, s, e, ExitIfEmpty(u, env))
  {
    var y := Excused(b) + (s.clients.Keys - u.clients.Keys);
    var v := ExitIfEmpty(u, env);
    EndPhaseFrame(u, env);
    ExitIfEmptyVote(u, env, b.asked, y);
    PassedOnward(s, u, v, b.asked, y, y);
    assert y == Excused(Observe(b, s, e, v));
    KeptBy(b, s, e, v, y);
  }

  lemma BusLostVote(b: Ballot, s: State, env: Env)
    requires Inv(s) && BallotOk(b, s) && s.phase == QUERY_END_SESSION
    ensures VoteKept(b, s, EvBusLost, BusLost(s, env))
  {
    DropAllVote(s, env.order, None, env, b.asked, Excused(b));
    EmptiedVote(b, s, DropAll(s, env.order, None, env), EvBusLost, env);
  }

  lemma ClientGoneVote(b: Ballot, s: State, c: ClientId, env: Env)
    requires Inv(s) && BallotOk(b, s) && s.phase == QUERY_END_SESSION
    requires c in s.clients && s.clients[c].bus.None? && s.clients[c].watched
    ensures VoteKept(b, s, EvClientGone(c), ClientGone(s, c, env))
  {
    var u := Drop(s, c, env);
    DropVote(s, c, env, b.asked, Excused(b));
    DropFrame(s, c, env);
    assert Excused(b) + {c} == Excused(b) + (s.clients.Keys - u.clients.Keys);
    EmptiedVote(b, s, u, EvClientGone(c), env);
  }

  /** Entering the query: everyone the messages reached is on the list. */
  lemma QueryBegins(s: State, env: Env)
    requires s.phase == RUNNING
    ensures var t := EndPhase(s, env);
            t.phase >= QUERY_END_SESSION ==> s.log <= t.log && BallotOk(Ballot(Asked(t.log[|s.log|..]), {}, {}, {}), t)
  {
    if !env.lockedDown {
      var keep := s.clients.Keys * env.queryOk;
      var n := AskQuery(s.mode == Force);
      var t := EndPhase(s, env);
      assert t == Begin(Advance(Finish(s, env)), env);
      assert t.log[|s.log|..] == Notices(env.order, keep, n);
      NoticesAreSends(env.order, keep, n);
      PrependedMembers(env.order, keep);
    }
  }

  /** An event that leaves the lists, the inhibitors and the phase as they are. */
  lemma QuietVote(b: Ballot, s: State, e: Event, t: State)
    requires BallotOk(b, s) && s.phase == QUERY_END_SESSION && (e.EvAnswer? ==> e.client !in s.clients)
    requires t.phase == s.phase && t.query == s.query && t.mode == s.mode && s.clients.Keys <= t.clients.Keys
    requires t.inhibitors == s.inhibitors
    ensures VoteKept(b, s, e, t)
  {
    KeptBy(b, s, e, t, Excused(b));
  }

  lemma AcceptVote(b: Ballot, s: State, env: Env)
    requires BallotOk(b, s) && s.phase == QUERY_END_SESSION
    ensures VoteKept(b, s, EvAccept, Accept(s, env))
  {
    EndPhaseFrame(s.(dialog := None, mode := Force), env);
    if s.dialog.Some? && EndsSession(s.dialog.value.action) {
      KeptBy(b, s, EvAccept, Accept(s, env), Excused(b));
    } else {
      QuietVote(b, s, EvAccept, Accept(s, env));
    }
  }

  lemma DeclineVote(b: Ballot, s: State, env: Env)
    requires BallotOk(b, s) && s.phase == QUERY_END_SESSION
    ensures VoteKept(b, s, EvDecline, Decline(s, env))
  {
    if s.dialog.Some? && EndsSession(s.dialog.value.action) {
      CancelResult(s.(dialog := None), env);
    } else {
      QuietVote(b, s, EvDecline, Decline(s, env));
    }
  }

  lemma AddInhibitorVote(b: Ballot, s: State, e: Event, inh: Inhibitor)
    requires Inv(s) && BallotOk(b, s) && s.phase == QUERY_END_SESSION && !e.EvAnswer?
    ensures VoteKept(b, s, e, AddInhibitor(s, inh))
  {
    var t := AddInhibitor(s, inh);
    forall c: ClientId | HasJit(s.inhibitors, c)
      ensures HasJit(t.inhibitors, c)
    {
      var i :| i in s.inhibitors && s.inhibitors[i].client == Some(c);
      assert i in t.inhibitors && t.inhibitors[i] == s.inhibitors[i];
    }
    KeptBy(b, s, e, t, Excused(b));
  }

  lemma UninhibitVote(b: Ballot, s: State, cookie: nat, env: Env)
    requires Inv(s) && BallotOk(b, s) && s.phase == QUERY_END_SESSION
    ensures VoteKept(b, s, EvUninhibit(cookie), Uninhibit(s, cookie, env))
  {
    var e := EvUninhibit(cookie);
    var x := Excused(b) + LiftedBy(s, e);
    assert Voted(s, b.asked, x);
    RemoveVote(s, WithCookie(s, cookie), env, b.asked, x);
    KeptBy(b, s, e, Uninhibit(s, cookie, env), x);
  }

  lemma AnsweredVote(b: Ballot, s: State, c: ClientId, ok: bool, last: bool, cancel: bool, env: Env)
    requires Inv(s) && Fair(env.random) && |s.inhibitors| < MAX_COOKIE && c in s.clients
    requires BallotOk(b, s) && s.phase == QUERY_END_SESSION
    ensures VoteKept(b, s, EvAnswer(c, ok, last, cancel), Answer(s, c, ok, last, cancel, env))
  {
    var e := EvAnswer(c, ok, last, cancel);
    var t := Answer(s, c, ok, last, cancel, env);
    AnswerPhase(s, c, ok, last, cancel, env);
    if !cancel {
      AnswerVote(s, c, ok, last, env, b.asked, Excused(b));
      KeptBy(b, s, e, t, if ok then Excused(b) + {c} else Excused(b) - {c});
    }
  }

  lemma DisconnectionVoteStep(b: Ballot, s: State, e: Event, env: Env)
    requires Inv(s) && Walks(env.order, s.clients) && BallotOk(b, s) && s.phase == QUERY_END_SESSION
    requires e.EvClientGone? || e.EvBusNameLost? || e.EvBusLost?
    ensures VoteKept(b, s, e, ClientStep(s, e, env))
  {
    match e
    case EvClientGone(c) =>
      if c in s.clients && s.clients[c].bus.None? && s.clients[c].watched {
        ClientGoneVote(b, s, c, env);
      } else {
        QuietVote(b, s, e, s);
      }
    case EvBusNameLost(name) =>
      if name != "" {
        BusNameLostVote(b, s, name, env);
      } else {
        QuietVote(b, s, e, s);
      }
    case EvBusLost => BusLostVote(b, s, env);
    case _ =>
  }

  lemma InhibitVoteStep(b: Ballot, s: State, e: Event, env: Env)
    requires Inv(s) && BallotOk(b, s) && s.phase == QUERY_END_SESSION && e.EvInhibit?
    ensures VoteKept(b, s, e, ClientStep(s, e, env))
  {
    if s.mode == Force || e.appId == "" || e.reason == "" || e.flags == {} {
      QuietVote(b, s, e, s);
    } else {
      AddInhibitorVote(b, s, e, Inhibitor(None, e.flags, Some(e.bus), FreshCookie(env.random, Cookies(s.inhibitors))));
    }
  }

  lemma AnswerVoteStep(b: Ballot, s: State, e: Event, env: Env)
    requires Inv(s) && Fair(env.random) && |s.inhibitors| < MAX_COOKIE
    requires BallotOk(b, s) && s.phase == QUERY_END_SESSION && e.EvAnswer?
    ensures VoteKept(b, s, e, ClientStep(s, e, env))
  {
    if e.client !in s.clients {
      assert ClientStep(s, e, env) == s;
      QuietVote(b, s, e, s);
    } else {
      assert ClientStep(s, e, env) == Answer(s, e.client, e.ok, e.last, e.cancel, env);
      AnsweredVote(b, s, e.client, e.ok, e.last, e.cancel, env);
    }
  }

  lemma RegistrationVoteStep(b: Ballot, s: State, e: Event, env: Env)
    requires Inv(s) && BallotOk(b, s) && s.phase == QUERY_END_SESSION
    requires e.EvConnect? || e.EvRegisterXsmp? || e.EvRegisterDBus?
    ensures VoteKept(b, s, e, ClientStep(s, e, env))
  {
    QuietVote(b, s, e, ClientStep(s, e, env));
  }

  lemma ClientVoteStep(b: Ballot, s: State, e: Event, env: Env)
    requires Inv(s) && Possible(s, e, env) && BallotOk(b, s) && s.phase == QUERY_END_SESSION && FromClient(e)
    ensures VoteKept(b, s, e, ClientStep(s, e, env))
  {
    match e
    case EvAnswer(_, _, _, _) => AnswerVoteStep(b, s, e, env);
    case EvUninhibit(cookie) => UninhibitVote(b, s, cookie, env);
    case EvInhibit(_, _, _, _) => InhibitVoteStep(b, s, e, env);
    case EvClientGone(_) => DisconnectionVoteStep(b, s, e, env);
    case EvBusNameLost(_) => DisconnectionVoteStep(b, s, e, env);
    case EvBusLost => DisconnectionVoteStep(b, s, e, env);
    case _ => RegistrationVoteStep(b, s, e, env);
  }

  /** While the query runs, requests and signals meant for other phases do nothing. */
  lemma RequestIgnored(s: State, e: Event, env: Env)
    requires Shape(s) && s.phase == QUERY_END_SESSION
    requires e.EvStart? || e.EvAppSignal? || e.EvPhaseTimeout? || e.EvLogout? || e.EvHalt?
    ensures OwnStep(s, e, env) == s
  {
  }

  lemma AsideStep(s: State, e: Event, env: Env)
    requires e.EvSleep? || e.EvPresence?
    ensures var t := OwnStep(s, e, env); t == s.(dialog := t.dialog, log := t.log, presence := t.presence)
  {
  }

  lemma RequestVoteStep(b: Ballot, s: State, e: Event, env: Env)
    requires Inv(s) && BallotOk(b, s) && s.phase == QUERY_END_SESSION
    requires !FromClient(e) && !e.EvQueryTimeout? && !e.EvAccept? && !e.EvDecline?
    ensures VoteKept(b, s, e, OwnStep(s, e, env))
  {
    if e.EvSleep? || e.EvPresence? {
      AsideStep(s, e, env);
    } else {
      RequestIgnored(s, e, env);
    }
    QuietVote(b, s, e, OwnStep(s, e, env));
  }

  lemma TimedOutVote(b: Ballot, s: State, env: Env)
    requires Inv(s) && Fair(env.random) && |s.inhibitors| + |s.query| <= MAX_COOKIE
    requires BallotOk(b, s) && s.phase == QUERY_END_SESSION
    ensures VoteKept(b, s, EvQueryTimeout, QueryTimeout(s, env))
  {
    QueryTimeoutVote(s, env, b.asked, Excused(b));
    KeptBy(b, s, EvQueryTimeout, QueryTimeout(s, env), Excused(b));
  }

  lemma DialogVoteStep(b: Ballot, s: State, e: Event, env: Env)
    requires BallotOk(b, s) && s.phase == QUERY_END_SESSION && (e.EvAccept? || e.EvDecline?)
    ensures VoteKept(b, s, e, OwnStep(s, e, env))
  {
    if e.EvAccept? {
      AcceptVote(b, s, env);
    } else {
      DeclineVote(b, s, env);
    }
  }

  lemma OwnVoteStep(b: Ballot, s: State, e: Event, env: Env)
    requires Inv(s) && Fair(env.random) && |s.inhibitors| + |s.query| <= MAX_COOKIE
    requires BallotOk(b, s) && s.phase == QUERY_END_SESSION && !FromClient(e)
    ensures VoteKept(b, s, e, OwnStep(s, e, env))
  {
    if e.EvQueryTimeout? {
      TimedOutVote(b, s, env);
    } else if e.EvAccept? || e.EvDecline? {
      DialogVoteStep(b, s, e, env);
    } else {
      RequestVoteStep(b, s, e, env);
    }
  }

  lemma OutsideVoteStep(b: Ballot, s: State, e: Event, env: Env)
    requires Inv(s) && s.phase != QUERY_END_SESSION
    ensures VoteKept(b, s, e, Step(s, e, env))
  {
    StepPhase(s, e, env);
    if s.phase == RUNNING && e.EvLogout? {
      QueryBegins(s.(mode := e.mode, ending := Logout), env);
    } else if s.phase == RUNNING && e.EvHalt? {
      QueryBegins(s.(ending := e.ending), env);
    }
  }

  /** One event keeps the bystander's notes right, and lets the query pass only as it should. */
  lemma VoteStep(b: Ballot, s: State, e: Event, env: Env)
    requires Inv(s) && Possible(s, e, env) && BallotOk(b, s)
    ensures VoteKept(b, s, e, Step(s, e, env))
  {
    if s.phase != QUERY_END_SESSION {
      OutsideVoteStep(b, s, e, env);
    } else if FromClient(e) {
      ClientVoteStep(b, s, e, env);
    } else {
      OwnVoteStep(b, s, e, env);
    }
  }

  // ----- whole runs -----

  ghost function Tally(s: State, es: seq<(Event, Env)>): Ballot {
    if es == [] then Ballot({}, {}, {}, {})
    else Observe(Tally(s, es[..|es| - 1]), Run(s, es[..|es| - 1]), es[|es| - 1].0, Run(s, es))
  }

  lemma {:induction false} TallyOk(apps: map<App, AppInfo>, idleCounter: bool, es: seq<(Event, Env)>)
    requires PossibleRun(Initial(apps, idleCounter), es)
    ensures BallotOk(Tally(Initial(apps, idleCounter), es), Run(Initial(apps, idleCounter), es))
  {
    if es != [] {
      var s := Initial(apps, idleCounter);
      var before := es[..|es| - 1];
      TallyOk(apps, idleCounter, before);
      RunInv(apps, idleCounter, before);
      VoteStep(Tally(s, before), Run(s, before), es[|es| - 1].0, es[|es| - 1].1);
    }
  }

  /** The clients that were there and could be reached when the logout began. */
  ghost function Reachable(s: State, es: seq<(Event, Env)>): set<ClientId> {
    if es == [] then {}
    else
      var before := es[..|es| - 1];
      if Run(s, before).phase < QUERY_END_SESSION <= Run(s, es).phase then Run(s, es).clients.Keys * es[|es| - 1].1.queryOk
      else Reachable(s, before)
  }

  lemma AskedOfNotices(messages: seq<Message>, to: set<ClientId>, n: Notice)
    requires SessionMessages.SentTo(messages, to, n) && n.AskQuery?
    ensures Asked(messages) == to
  {
    forall c | c in to
      ensures c in Asked(messages)
    {
      assert Send(c, n) in messages;
    }
  }

  lemma OpeningAsks(b: Ballot, s: State, e: Event, env: Env)
    requires Inv(s) && Possible(s, e, env) && s.phase < QUERY_END_SESSION <= Step(s, e, env).phase
    ensures var t := Step(s, e, env); Observe(b, s, e, t).asked == t.clients.Keys * env.queryOk
  {
    var t := Step(s, e, env);
    var mode := SessionMessages.RequestedMode(e);
    SessionMessages.QueryAsksEverybody(s, e, env);
    AskedOfNotices(t.log[|s.log|..], t.clients.Keys * env.queryOk, AskQuery(mode == Force));
  }

  lemma AskedStep(b: Ballot, s: State, e: Event, env: Env)
    requires Inv(s) && Possible(s, e, env)
    ensures var t := Step(s, e, env);
            Observe(b, s, e, t).asked ==
              if s.phase < QUERY_END_SESSION <= t.phase then t.clients.Keys * env.queryOk else b.asked
  {
    if s.phase < QUERY_END_SESSION <= Step(s, e, env).phase {
      OpeningAsks(b, s, e, env);
    }
  }

  /** On every run, those who were sent the question are all who could be reached. */
  lemma {:induction false} AllReachableAsked(apps: map<App, AppInfo>, idleCounter: bool, es: seq<(Event, Env)>)
    requires PossibleRun(Initial(apps, idleCounter), es)
    ensures Tally(Initial(apps, idleCounter), es).asked == Reachable(Initial(apps, idleCounter), es)
  {
    if es != [] {
      var s0 := Initial(apps, idleCounter);
      var before := es[..|es| - 1];
      AllReachableAsked(apps, idleCounter, before);
      RunInv(apps, idleCounter, before);
      AskedStep(Tally(s0, before), Run(s0, before), es[|es| - 1].0, es[|es| - 1].1);
    }
  }

  /**
   On every run: whenever an event takes the session from the query to its end
   without force, each client that was there and could be reached when the
   logout began has agreed, has gone, or had its refusal lifted, and no
   inhibitor of logout is left while clients are.
   */
  lemma Unanimity(apps: map<App, AppInfo>, idleCounter: bool, es: seq<(Event, Env)>, e: Event, env: Env)
    requires PossibleRun(Initial(apps, idleCounter), es + [(e, env)])
    ensures var s := Run(Initial(apps, idleCounter), es);
            var t := Step(s, e, env);
            var b := Tally(Initial(apps, idleCounter), es + [(e, env)]);
            s.phase == QUERY_END_SESSION && t.phase > QUERY_END_SESSION && t.mode != Force ==>
              && (forall c | c in Reachable(Initial(apps, idleCounter), es) :: c in b.agreed || c in b.gone || c in b.lifted)
              && (Inhibited(t.inhibitors, FlagLogout) ==> t.clients == map[])
  {
    var s0 := Initial(apps, idleCounter);
    var all := es + [(e, env)];
    assert all[..|all| - 1] == es;
    TallyOk(apps, idleCounter, es);
    RunInv(apps, idleCounter, es);
    VoteStep(Tally(s0, es), Run(s0, es), e, env);
    AllReachableAsked(apps, idleCounter, es);
  }
}
