/**
 Refusals: every "no" to the query stands as a just-in-time inhibitor of its
 own until the client says "yes", goes, has it lifted, or the logout is taken
 back; and silence counts as one refusal.
 */
module SessionRefusals {
  import opened Wrappers
  import opened Session
  import opened CookieSupply
  import opened SessionInvariant
  import opened SessionFrames
  import opened SessionExits
  import opened SessionMessages

  // ----- everybody concerned is there -----

  /** Whoever holds a just-in-time inhibitor is connected, and so is, once, whoever is awaited in a query. */
  predicate There(s: State) {
    && (forall i | i in s.inhibitors && s.inhibitors[i].client.Some? :: s.inhibitors[i].client.value in s.clients)
    && (s.phase == QUERY_END_SESSION ==> NoDuplicates(s.query) && forall c | c in s.query :: c in s.clients)
  }

  lemma RemoveOnce(list: seq<ClientId>, c: ClientId)
    requires NoDuplicates(list)
    ensures NoDuplicates(RemoveFirst(list, c)) && c !in RemoveFirst(list, c)
    ensures forall x :: x in RemoveFirst(list, c) ==> x in list
  {
    RemoveFirstWithin(list, c);
    RemoveFirstOnce(list, c);
  }

  lemma {:induction false} RemoveFirstOnce(list: seq<ClientId>, c: ClientId)
    requires NoDuplicates(list)
    ensures NoDuplicates(RemoveFirst(list, c)) && c !in RemoveFirst(list, c)
  {
    if list != [] && list[0] != c {
      RemoveFirstOnce(list[1..], c);
      RemoveFirstWithin(list[1..], c);
      assert list[0] !in list[1..];
    } else if list != [] {
      assert list[0] !in list[1..];
    }
  }

  // ----- what each handler does to the inhibitors of one client -----

  lemma AddJitEntry(s: State, d: ClientId, env: Env)
    ensures s.nextInhibitor in AddJit(s, d, env).inhibitors
    ensures AddJit(s, d, env).inhibitors[s.nextInhibitor].client == Some(d)
    ensures var inh := AddJit(s, d, env).inhibitors[s.nextInhibitor];
            AddJit(s, d, env).inhibitors == s.inhibitors[s.nextInhibitor := inh]
  {
  }

  lemma OneMoreJit(s: State, t: State, id: InhibitorId, inh: Inhibitor, c: ClientId)
    requires id !in s.inhibitors && t.inhibitors == s.inhibitors[id := inh]
    ensures id !in JitsOf(s, c)
    ensures JitsOf(t, c) == JitsOf(s, c) + if inh.client == Some(c) then {id} else {}
  {
    forall i: InhibitorId
      ensures i in JitsOf(t, c) <==> i in JitsOf(s, c) || (i == id && inh.client == Some(c))
    {
      assert i in t.inhibitors <==> i in s.inhibitors || i == id;
      assert i in s.inhibitors ==> t.inhibitors[i] == s.inhibitors[i];
    }
  }

  lemma OneLarger(a: set<InhibitorId>, id: InhibitorId)
    requires id !in a
    ensures |a + {id}| == |a| + 1
  {
  }

  lemma AddedRefusal(s: State, d: ClientId, env: Env, c: ClientId)
    requires s.nextInhibitor !in s.inhibitors
    ensures |JitsOf(AddJit(s, d, env), c)| == |JitsOf(s, c)| + if c == d then 1 else 0
  {
    var t := AddJit(s, d, env);
    AddJitEntry(s, d, env);
    OneMoreJit(s, t, s.nextInhibitor, t.inhibitors[s.nextInhibitor], c);
    OneLarger(JitsOf(s, c), s.nextInhibitor);
    assert JitsOf(s, c) + {} == JitsOf(s, c);
  }

  lemma CountLast(list: seq<ClientId>, c: ClientId)
    requires list != []
    ensures var k := |list| - 1;
            multiset(list)[c] == multiset(list[..k])[c] + if c == list[k] then 1 else 0
  {
    assert list == list[..|list| - 1] + [list[|list| - 1]];
  }

  lemma {:induction false} AddedRefusals(s: State, list: seq<ClientId>, env: Env, c: ClientId)
    requires Settled(s) && s.phase >= QUERY_END_SESSION && Listed(list, s.nextClient)
    requires Fair(env.random) && |s.inhibitors| + |list| <= MAX_COOKIE
    ensures |JitsOf(AddJits(s, list, env), c)| == |JitsOf(s, c)| + multiset(list)[c]
  {
    if list != [] {
      var k := |list| - 1;
      AddedRefusals(s, list[..k], env, c);
      AddJitsSettled(s, list[..k], env);
      AddedRefusal(AddJits(s, list[..k], env), list[k], env, c);
      CountLast(list, c);
    }
  }

  lemma RemovedRefusals(s: State, t: State, gone: set<InhibitorId>, c: ClientId)
    requires t.inhibitors == s.inhibitors - gone
    ensures JitsOf(t, c) == JitsOf(s, c) - gone
  {
  }

  lemma DropInhibitors(s: State, c: ClientId, env: Env)
    ensures Drop(s, c, env).inhibitors == s.inhibitors - JitsOf(s, c)
  {
    var t := RemoveInhibitors(s, JitsOf(s, c), env);
    RemoveInhibitorsFrame(s, JitsOf(s, c), env);
    if t.phase == QUERY_END_SESSION {
      var q := t.(query := RemoveFirst(t.query, c));
      assert JitsOf(q, c) == {};
      RemoveInhibitorsFrame(q, JitsOf(q, c), env);
      AfterAnswerFrame(RemoveInhibitors(q, JitsOf(q, c), env), c, false, env);
    }
  }

  lemma {:induction false} DropAllInhibitors(s: State, list: seq<ClientId>, name: Option<string>, env: Env)
    ensures DropAll(s, list, name, env).inhibitors == s.inhibitors - TheirJits(s, Parted(s, name) * Elements(list))
  {
    if list == [] {
      assert TheirJits(s, Parted(s, name) * Elements(list)) == {};
    } else {
      var k := |list| - 1;
      var t := DropAll(s, list[..k], name, env);
      DropAllInhibitors(s, list[..k], name, env);
      DropAllClients(s, list[..k], name, env);
      ElementsOfLonger(list);
      var dropped := Parted(s, name) * Elements(list[..k]);
      if DropAll(s, list, name, env) != t {
        DropInhibitors(t, list[k], env);
        assert Parted(s, name) * Elements(list) == dropped + {list[k]};
        OneMoreDropped(s, t, dropped, list[k]);
      } else {
        DropFrame(t, list[k], env);
        assert list[k] !in t.clients || list[k] !in Parted(s, name);
        assert Parted(s, name) * Elements(list) == dropped;
      }
    }
  }

  lemma OneMoreDropped(s: State, t: State, dropped: set<ClientId>, c: ClientId)
    requires t.inhibitors == s.inhibitors - TheirJits(s, dropped)
    ensures t.inhibitors - JitsOf(t, c) == s.inhibitors - TheirJits(s, dropped + {c})
  {
  }

  // ----- the count of one client's refusals -----

  /** How many refusals of this client stand after the event, if so many stood before. */
  ghost function StandAfter(before: nat, s: State, e: Event, t: State, c: ClientId): int {
    if Cancels(s, e) || (c in s.clients && c !in t.clients) then 0
    else
      match e
      case EvAnswer(d, ok, _, _) =>
        if d != c || d !in s.clients || s.phase < QUERY_END_SESSION then before
        else if ok || s.mode == Force then 0
        else before + 1
      case EvQueryTimeout => if s.queryTimer != 0 && s.mode != Force && c in s.query then before + 1 else before
      case EvUninhibit(cookie) => before - |JitsOf(s, c) * WithCookie(s, cookie)|
      case _ => before
  }

  lemma LiftedRefusals(s: State, t: State, d: ClientId, c: ClientId)
    requires t.inhibitors == s.inhibitors - JitsOf(s, d)
    ensures JitsOf(t, c) == if d != c then JitsOf(s, c) else {}
  {
    RemovedRefusals(s, t, JitsOf(s, d), c);
    assert d != c ==> JitsOf(s, c) !! JitsOf(s, d);
  }

  lemma AnswerRefusals(s: State, d: ClientId, ok: bool, last: bool, env: Env, c: ClientId)
    requires Inv(s) && s.phase >= QUERY_END_SESSION
    ensures var t := Answer(s, d, ok, last, false, env);
            |JitsOf(t, c)| == if d != c then |JitsOf(s, c)| else if ok || s.mode == Force then 0 else |JitsOf(s, c)| + 1
  {
    var q := s.(query := RemoveFirst(s.query, d));
    var u := if !ok && q.mode != Force then AddJit(q, d, env) else RemoveInhibitors(q, JitsOf(q, d), env);
    SameJits(s, q, c);
    AfterAnswerFrame(u, d, last, env);
    SameJits(u, AfterAnswer(u, d, last, env), c);
    if !ok && q.mode != Force {
      AddedRefusal(q, d, env, c);
    } else {
      RemoveInhibitorsFrame(q, JitsOf(q, d), env);
      LiftedRefusals(q, u, d, c);
    }
  }

  lemma OnceCounted(list: seq<ClientId>, c: ClientId)
    requires NoDuplicates(list)
    ensures multiset(list)[c] == if c in list then 1 else 0
  {
    if c in list {
      var k :| 0 <= k < |list| && list[k] == c;
      assert list == list[..k] + [c] + list[k + 1..];
      assert c !in list[..k] && c !in list[k + 1..];
    }
  }

  lemma SameJits(s: State, t: State, c: ClientId)
    requires t.inhibitors == s.inhibitors
    ensures JitsOf(t, c) == JitsOf(s, c)
  {
  }

  lemma TimeoutInhibitors(s: State, env: Env)
    requires s.queryTimer != 0
    ensures var q := s.(queryTimer := 0);
            QueryTimeout(s, env).inhibitors == if s.mode == Force then s.inhibitors else AddJits(q, s.query, env).inhibitors
  {
    var q := s.(queryTimer := 0);
    AddJitsFrame(q, q.query, env);
    var u := (if q.mode == Force then q else AddJits(q, q.query, env)).(query := []);
    EndPhaseFrame(u.(queryTimer := 0), env);
  }

  lemma TimeoutRefusals(s: State, env: Env, c: ClientId)
    requires Inv(s) && There(s) && Fair(env.random) && |s.inhibitors| + |s.query| <= MAX_COOKIE
    ensures var t := QueryTimeout(s, env);
            |JitsOf(t, c)| == |JitsOf(s, c)| + if s.queryTimer != 0 && s.mode != Force && c in s.query then 1 else 0
  {
    if s.queryTimer != 0 {
      var q := s.(queryTimer := 0);
      TimeoutInhibitors(s, env);
      SameJits(s, q, c);
      if s.mode != Force {
        AddedRefusals(q, s.query, env, c);
        OnceCounted(s.query, c);
        SameJits(AddJits(q, s.query, env), QueryTimeout(s, env), c);
      } else {
        SameJits(s, QueryTimeout(s, env), c);
      }
    }
  }

  lemma LeaveRefusals(s: State, e: Event, env: Env, c: ClientId)
    requires Inv(s) && There(s) && Walks(env.order, s.clients) && (e.EvClientGone? || e.EvBusNameLost? || e.EvBusLost?)
    ensures var t := ClientStep(s, e, env);
            JitsOf(t, c) == if c in s.clients && c !in t.clients then {} else JitsOf(s, c)
  {
    match e
    case EvClientGone(d) => GoneRefusals(s, d, env, c);
    case EvBusNameLost(name) => NameRefusals(s, name, env, c);
    case EvBusLost => BusRefusals(s, env, c);
    case _ =>
  }

  lemma BusRefusals(s: State, env: Env, c: ClientId)
    requires There(s) && Walks(env.order, s.clients)
    ensures var t := BusLost(s, env);
            JitsOf(t, c) == if c in s.clients && c !in t.clients then {} else JitsOf(s, c)
  {
    var u := DropAll(s, env.order, None, env);
    DropAllInhibitors(s, env.order, None, env);
    DropAllClients(s, env.order, None, env);
    AllWalked(s, env.order, None);
    EndPhaseFrame(u, env);
    RemovedRefusals(s, BusLost(s, env), TheirJits(s, Parted(s, None)), c);
  }

  lemma GoneRefusals(s: State, d: ClientId, env: Env, c: ClientId)
    ensures var t := ClientGone(s, d, env);
            JitsOf(t, c) == if c in s.clients && c !in t.clients then {} else JitsOf(s, c)
  {
    if d in s.clients && s.clients[d].bus.None? && s.clients[d].watched {
      DropInhibitors(s, d, env);
      DropFrame(s, d, env);
      EndPhaseFrame(Drop(s, d, env), env);
      RemovedRefusals(s, Drop(s, d, env), JitsOf(s, d), c);
    }
  }

  lemma NameInhibitors(s: State, name: string, env: Env)
    requires Walks(env.order, s.clients) && name != ""
    ensures BusNameLost(s, name, env).inhibitors == s.inhibitors - OfName(s, name)
    ensures BusNameLost(s, name, env).clients == s.clients - Parted(s, Some(name))
  {
    var r := RemoveInhibitors(s, OnBus(s, name), env);
    var u := DropAll(r, env.order, Some(name), env);
    RemoveInhibitorsFrame(s, OnBus(s, name), env);
    BusNameClients(s, name, env);
    DropAllInhibitors(r, env.order, Some(name), env);
    AllWalked(r, env.order, Some(name));
    BusNameJits(s, r, name);
    EndPhaseFrame(u, env);
  }

  lemma NameJits(s: State, name: string, c: ClientId)
    requires Inv(s) && There(s)
    ensures forall i | i in JitsOf(s, c) :: i in OfName(s, name) <==> c in Parted(s, Some(name))
  {
    forall i | i in JitsOf(s, c)
      ensures i in OfName(s, name) <==> c in Parted(s, Some(name))
    {
      assert JitShape(s.inhibitors[i], s.clients, s.nextClient);
    }
  }

  lemma NameRefusals(s: State, name: string, env: Env, c: ClientId)
    requires Inv(s) && There(s) && Walks(env.order, s.clients)
    ensures var t := BusNameLost(s, name, env);
            JitsOf(t, c) == if c in s.clients && c !in t.clients then {} else JitsOf(s, c)
  {
    if name != "" {
      NameInhibitors(s, name, env);
      RemovedRefusals(s, BusNameLost(s, name, env), OfName(s, name), c);
      NameJits(s, name, c);
    }
  }

  lemma CancelRefusals(s: State, e: Event, env: Env, c: ClientId)
    requires Cancels(s, e)
    ensures JitsOf(Step(s, e, env), c) == {}
  {
    var d := s.(dialog := None);
    CancelResult(d, env);
    CancelResult(s, env);
    RemoveInhibitorsFrame(d, Jits(d), env);
    assert Jits(d) == Jits(s) && Withdrawn(d, env) == Withdrawn(s, env);
    assert Step(s, e, env).inhibitors == s.inhibitors - Jits(s);
  }

  // ----- each event -----

  lemma UninhibitRefusals(s: State, cookie: nat, env: Env, c: ClientId)
    ensures |JitsOf(Uninhibit(s, cookie, env), c)| == |JitsOf(s, c)| - |JitsOf(s, c) * WithCookie(s, cookie)|
  {
    RemoveInhibitorsFrame(s, WithCookie(s, cookie), env);
    RemovedRefusals(s, Uninhibit(s, cookie, env), WithCookie(s, cookie), c);
    var a, b := JitsOf(s, c), WithCookie(s, cookie);
    assert a == (a - b) + (a * b);
  }

  lemma InhibitRefusals(s: State, e: Event, env: Env, c: ClientId)
    requires e.EvInhibit? && s.nextInhibitor !in s.inhibitors
    ensures JitsOf(ClientStep(s, e, env), c) == JitsOf(s, c)
  {
    var t := ClientStep(s, e, env);
    if t != s {
      var inh := Inhibitor(None, e.flags, Some(e.bus), FreshCookie(env.random, Cookies(s.inhibitors)));
      assert t.inhibitors == s.inhibitors[s.nextInhibitor := inh];
      OneMoreJit(s, t, s.nextInhibitor, inh, c);
    }
  }

  lemma JoinRefusals(s: State, e: Event, env: Env, c: ClientId)
    requires e.EvConnect? || e.EvRegisterXsmp? || e.EvRegisterDBus?
    ensures JitsOf(ClientStep(s, e, env), c) == JitsOf(s, c) && s.clients.Keys <= ClientStep(s, e, env).clients.Keys
  {
    match e
    case EvRegisterXsmp(d, previous, app) =>
      RegisterXsmpFrame(s, d, previous, app, env);
      SameJits(s, ClientStep(s, e, env), c);
    case EvRegisterDBus(startupId, appId, bus, app) =>
      RegisterDBusFrame(s, startupId, appId, bus, app, env);
      DBusClients(s, e, env);
      SameJits(s, ClientStep(s, e, env), c);
    case _ => SameJits(s, ClientStep(s, e, env), c);
  }

  lemma DBusClients(s: State, e: Event, env: Env)
    requires e.EvRegisterDBus?
    ensures s.clients.Keys <= ClientStep(s, e, env).clients.Keys
  {
    var id := if e.startupId == "" then env.generated else e.startupId;
    if e.found.Some? {
      AppSignalFrame(AddClient(s, Client(Some(e.bus), id, AppIdOr(s, e.found, e.appId), false)), e.found.value, env);
    }
  }

  lemma AnswerStands(s: State, e: Event, env: Env, c: ClientId)
    requires Inv(s) && e.EvAnswer? && !Cancels(s, e)
    ensures |JitsOf(ClientStep(s, e, env), c)| == StandAfter(|JitsOf(s, c)|, s, e, ClientStep(s, e, env), c)
  {
    if e.client in s.clients {
      AnswerPhase(s, e.client, e.ok, e.last, e.cancel, env);
      if s.phase >= QUERY_END_SESSION {
        AnswerRefusals(s, e.client, e.ok, e.last, env, c);
      }
    }
  }

  lemma OwnersStand(s: State, e: Event, env: Env, c: ClientId)
    requires Inv(s) && (e.EvUninhibit? || e.EvInhibit?)
    ensures |JitsOf(ClientStep(s, e, env), c)| == StandAfter(|JitsOf(s, c)|, s, e, ClientStep(s, e, env), c)
  {
    if e.EvUninhibit? {
      RemoveInhibitorsFrame(s, WithCookie(s, e.cookie), env);
      UninhibitRefusals(s, e.cookie, env, c);
    } else {
      InhibitRefusals(s, e, env, c);
    }
  }

  lemma ClientStands(s: State, e: Event, env: Env, c: ClientId)
    requires Inv(s) && There(s) && Possible(s, e, env) && FromClient(e) && !Cancels(s, e)
    ensures |JitsOf(ClientStep(s, e, env), c)| == StandAfter(|JitsOf(s, c)|, s, e, ClientStep(s, e, env), c)
  {
    if e.EvAnswer? {
      AnswerStands(s, e, env, c);
    } else if e.EvUninhibit? || e.EvInhibit? {
      OwnersStand(s, e, env, c);
    } else if e.EvClientGone? || e.EvBusNameLost? || e.EvBusLost? {
      LeaveRefusals(s, e, env, c);
    } else {
      JoinRefusals(s, e, env, c);
    }
  }

  lemma OtherInhibitors(s: State, e: Event, env: Env)
    requires !FromClient(e) && !e.EvQueryTimeout? && !Cancels(s, e)
    ensures OwnStep(s, e, env).inhibitors == s.inhibitors && OwnStep(s, e, env).clients == s.clients
  {
    if EndsPhases(e) {
      PhaseInhibitors(s, e, env);
    } else if e.EvAccept? {
      EndPhaseFrame(s.(dialog := None, mode := Force), env);
    }
  }

  lemma PhaseInhibitors(s: State, e: Event, env: Env)
    requires EndsPhases(e) && !e.EvQueryTimeout?
    ensures OwnStep(s, e, env).inhibitors == s.inhibitors && OwnStep(s, e, env).clients == s.clients
  {
    match e
    case EvStart => StartPhaseFrame(s.(phase := INITIALIZATION), env);
    case EvAppSignal(a) => AppSignalFrame(s, a, env);
    case EvPhaseTimeout => EndPhaseFrame(s.(phaseTimer := 0), env);
    case EvLogout(mode) => EndPhaseFrame(s.(mode := mode, ending := Logout), env);
    case EvHalt(ending) => EndPhaseFrame(s.(ending := ending), env);
    case _ =>
  }

  lemma OwnStands(s: State, e: Event, env: Env, c: ClientId)
    requires Inv(s) && There(s) && Possible(s, e, env) && !FromClient(e) && !Cancels(s, e)
    ensures |JitsOf(OwnStep(s, e, env), c)| == StandAfter(|JitsOf(s, c)|, s, e, OwnStep(s, e, env), c)
  {
    if e.EvQueryTimeout? {
      QueryTimeoutFrame(s, env);
      TimeoutRefusals(s, env, c);
    } else {
      OtherInhibitors(s, e, env);
      SameJits(s, OwnStep(s, e, env), c);
    }
  }

  /** Each event changes the number of a client's refusals as it should. */
  lemma RefusalsStep(s: State, e: Event, env: Env, c: ClientId)
    requires Inv(s) && There(s) && Possible(s, e, env)
    ensures |JitsOf(Step(s, e, env), c)| == StandAfter(|JitsOf(s, c)|, s, e, Step(s, e, env), c)
  {
    if Cancels(s, e) {
      CancelRefusals(s, e, env, c);
    } else if FromClient(e) {
      ClientStands(s, e, env, c);
    } else {
      OwnStands(s, e, env, c);
    }
  }

  // ----- the list of those awaited in a query -----

  /** As long as the query lasts, the list only gets shorter, and only of clients that are there. */
  predicate Shortens(s: State, t: State) {
    t.phase == QUERY_END_SESSION ==>
      && s.phase == QUERY_END_SESSION && NoDuplicates(t.query)
      && forall c | c in t.query :: c in s.query && (c in s.clients ==> c in t.clients)
  }

  lemma AnswerShortens(s: State, c: ClientId, ok: bool, last: bool, env: Env)
    requires s.phase >= QUERY_END_SESSION && (s.phase == QUERY_END_SESSION ==> NoDuplicates(s.query))
    ensures var t := Answer(s, c, ok, last, false, env);
            && Shortens(s, t) && t.clients == s.clients
            && (t.phase == QUERY_END_SESSION ==> c !in t.query)
  {
    AnswerPhase(s, c, ok, last, false, env);
    var q := s.(query := RemoveFirst(s.query, c));
    var u := if !ok && q.mode != Force then AddJit(q, c, env) else RemoveInhibitors(q, JitsOf(q, c), env);
    RemoveInhibitorsPhase(q, JitsOf(q, c), env);
    AfterAnswerFrame(u, c, last, env);
    if s.phase == QUERY_END_SESSION {
      RemoveOnce(s.query, c);
      if u.phase == QUERY_END_SESSION {
        CompleteQuery(u, c, last, env);
      }
    }
  }

  lemma CompleteQuery(u: State, c: ClientId, last: bool, env: Env)
    requires u.phase == QUERY_END_SESSION
    ensures var t := AfterAnswer(u, c, last, env); t.phase == QUERY_END_SESSION ==> t.query == u.query
  {
    EndPhaseFrame(u.(queryTimer := 0), env);
  }

  lemma DropShortens(s: State, c: ClientId, env: Env)
    requires s.phase >= QUERY_END_SESSION && (s.phase == QUERY_END_SESSION ==> NoDuplicates(s.query))
    ensures Shortens(s, Drop(s, c, env)) && Drop(s, c, env).phase >= QUERY_END_SESSION
  {
    var t := RemoveInhibitors(s, JitsOf(s, c), env);
    RemoveInhibitorsPhase(s, JitsOf(s, c), env);
    RemoveInhibitorsFrame(s, JitsOf(s, c), env);
    DropFrame(s, c, env);
    if t.phase == QUERY_END_SESSION {
      AnswerShortens(t, c, true, false, env);
    }
  }

  lemma {:induction false} DropAllShortens(s: State, list: seq<ClientId>, name: Option<string>, env: Env)
    requires s.phase >= QUERY_END_SESSION && (s.phase == QUERY_END_SESSION ==> NoDuplicates(s.query))
    ensures Shortens(s, DropAll(s, list, name, env)) && DropAll(s, list, name, env).phase >= QUERY_END_SESSION
  {
    if list != [] {
      var k := |list| - 1;
      var t := DropAll(s, list[..k], name, env);
      DropAllShortens(s, list[..k], name, env);
      DropShortens(t, list[k], env);
      DropAllOnward(s, list[..k], name, env);
    }
  }

  lemma NameShortens(s: State, name: string, env: Env)
    requires There(s) && s.phase >= QUERY_END_SESSION
    ensures Shortens(s, BusNameLost(s, name, env))
  {
    var r := RemoveInhibitors(s, OnBus(s, name), env);
    RemoveInhibitorsPhase(s, OnBus(s, name), env);
    RemoveInhibitorsFrame(s, OnBus(s, name), env);
    DropAllShortens(r, env.order, Some(name), env);
    EndPhaseFrame(DropAll(r, env.order, Some(name), env), env);
  }

  lemma LeaveShortens(s: State, e: Event, env: Env)
    requires There(s) && s.phase >= QUERY_END_SESSION && (e.EvClientGone? || e.EvBusNameLost? || e.EvBusLost?)
    ensures Shortens(s, ClientStep(s, e, env))
  {
    match e
    case EvClientGone(c) =>
      DropShortens(s, c, env);
      EndPhaseFrame(Drop(s, c, env), env);
    case EvBusNameLost(name) => NameShortens(s, name, env);
    case EvBusLost =>
      DropAllShortens(s, env.order, None, env);
      EndPhaseFrame(DropAll(s, env.order, None, env), env);
    case _ =>
  }

  lemma ClientShortens(s: State, e: Event, env: Env)
    requires There(s) && s.phase >= QUERY_END_SESSION && FromClient(e) && !Cancels(s, e)
    ensures Shortens(s, ClientStep(s, e, env))
  {
    if e.EvAnswer? {
      if e.client in s.clients {
        AnswerShortens(s, e.client, e.ok, e.last, env);
      }
    } else if e.EvUninhibit? {
      RemoveInhibitorsPhase(s, WithCookie(s, e.cookie), env);
      RemoveInhibitorsFrame(s, WithCookie(s, e.cookie), env);
    } else if e.EvClientGone? || e.EvBusNameLost? || e.EvBusLost? {
      LeaveShortens(s, e, env);
    }
  }

  lemma TimeoutShortens(s: State, env: Env)
    requires There(s) && Shape(s)
    ensures Shortens(s, QueryTimeout(s, env))
  {
    if s.queryTimer != 0 {
      var q := s.(queryTimer := 0);
      AddJitsFrame(q, q.query, env);
      EndPhaseFrame((if q.mode == Force then q else AddJits(q, q.query, env)).(query := [], queryTimer := 0), env);
    }
  }

  lemma PhaseTimeoutShortens(s: State, env: Env)
    requires There(s) && s.phase >= QUERY_END_SESSION
    ensures Shortens(s, PhaseTimeout(s, env))
  {
    EndPhaseFrame(s.(phaseTimer := 0), env);
  }

  lemma AcceptShortens(s: State, env: Env)
    requires There(s) && s.phase >= QUERY_END_SESSION
    ensures Shortens(s, Accept(s, env))
  {
    EndPhaseFrame(s.(dialog := None, mode := Force), env);
  }

  lemma OwnShortens(s: State, e: Event, env: Env)
    requires There(s) && Shape(s) && s.phase >= QUERY_END_SESSION && !FromClient(e) && !Cancels(s, e)
    ensures Shortens(s, OwnStep(s, e, env))
  {
    if e.EvQueryTimeout? {
      TimeoutShortens(s, env);
    } else if e.EvPhaseTimeout? {
      PhaseTimeoutShortens(s, env);
    } else if e.EvAccept? {
      AcceptShortens(s, env);
    }
  }

  lemma StepShortens(s: State, e: Event, env: Env)
    requires Inv(s) && There(s) && Possible(s, e, env) && s.phase >= QUERY_END_SESSION
    ensures Shortens(s, Step(s, e, env))
  {
    if Cancels(s, e) {
      CancelSays(s, e, env);
    } else if FromClient(e) {
      ClientShortens(s, e, env);
    } else {
      OwnShortens(s, e, env);
    }
  }

  lemma QueryThere(s: State, e: Event, env: Env)
    requires Inv(s) && There(s) && Possible(s, e, env)
    ensures var t := Step(s, e, env);
            t.phase == QUERY_END_SESSION ==> NoDuplicates(t.query) && forall c | c in t.query :: c in t.clients
  {
    if s.phase < QUERY_END_SESSION {
      QueryAsksEverybody(s, e, env);
    } else {
      StepShortens(s, e, env);
    }
  }

  lemma ThereStep(s: State, e: Event, env: Env)
    requires Inv(s) && There(s) && Possible(s, e, env)
    ensures There(Step(s, e, env))
  {
    var t := Step(s, e, env);
    QueryThere(s, e, env);
    forall i | i in t.inhibitors && t.inhibitors[i].client.Some?
      ensures t.inhibitors[i].client.value in t.clients
    {
      var c := t.inhibitors[i].client.value;
      assert c !in s.clients ==> JitsOf(s, c) == {};
      RefusalsStep(s, e, env, c);
      assert i in JitsOf(t, c) && |JitsOf(t, c)| > 0;
    }
  }

  // ----- whole runs -----

  /** A bystander's count of the refusals of this client that stand. */
  ghost function Refused(s: State, es: seq<(Event, Env)>, c: ClientId): int {
    if es == [] then 0
    else
      var before := es[..|es| - 1];
      var n := Refused(s, before, c);
      StandAfter(if n < 0 then 0 else n, Run(s, before), es[|es| - 1].0, Run(s, es), c)
  }

  lemma {:induction false} ThereOverRuns(apps: map<App, AppInfo>, idleCounter: bool, es: seq<(Event, Env)>)
    requires PossibleRun(Initial(apps, idleCounter), es)
    ensures There(Run(Initial(apps, idleCounter), es))
  {
    if es != [] {
      var before := es[..|es| - 1];
      ThereOverRuns(apps, idleCounter, before);
      RunInv(apps, idleCounter, before);
      ThereStep(Run(Initial(apps, idleCounter), before), es[|es| - 1].0, es[|es| - 1].1);
    }
  }

  /**
   On every run: a client holds as many just-in-time inhibitors as it has
   refusals standing, each "no" or silence counting one, and none after a "yes",
   a departure or a cancelled logout.
   */
  lemma {:induction false} RefusalsOverRuns(apps: map<App, AppInfo>, idleCounter: bool, es: seq<(Event, Env)>, c: ClientId)
    requires PossibleRun(Initial(apps, idleCounter), es)
    ensures |JitsOf(Run(Initial(apps, idleCounter), es), c)| == Refused(Initial(apps, idleCounter), es, c)
  {
    var s0 := Initial(apps, idleCounter);
    if es == [] {
      assert JitsOf(s0, c) == {};
    } else {
      var before := es[..|es| - 1];
      RefusalsOverRuns(apps, idleCounter, before, c);
      ThereOverRuns(apps, idleCounter, before);
      RunInv(apps, idleCounter, before);
      RefusalsStep(Run(s0, before), es[|es| - 1].0, es[|es| - 1].1, c);
    }
  }
}
