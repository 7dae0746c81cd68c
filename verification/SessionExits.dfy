/**
 When the session leaves its end for good: event by event, and seen by a
 bystander over whole runs. A logout dialog that is still up from the query is
 what can cut the end short.
 */
module SessionExits {
  import opened Wrappers
  import opened Session
  import opened SessionInvariant
  import opened SessionFrames
  import opened SessionRounds

  /** A dialog about ending the session is up. */
  predicate OwnDialog(s: State) {
    s.dialog.Some? && EndsSession(s.dialog.value.action)
  }

  /** Without these inhibitors such a dialog has no row left. */
  predicate Emptied(s: State, gone: set<InhibitorId>) {
    OwnDialog(s) && s.inhibitors.Keys <= gone
  }

  lemma EmptiedForces(s: State, gone: set<InhibitorId>)
    requires DialogMirrors(s.dialog, s.inhibitors)
    ensures Forces(s, gone) <==> Emptied(s, gone)
  {
    if OwnDialog(s) {
      assert s.inhibitors.Keys != {};
      assert s.inhibitors.Keys <= gone + (s.inhibitors.Keys - gone);
      if s.inhibitors.Keys <= gone {
        assert s.inhibitors.Keys * gone == s.inhibitors.Keys;
      }
    }
  }

  // ----- removals and disconnections within the end -----

  /** Either the end is over, or just these inhibitors are gone. */
  predicate Removed(s: State, t: State, gone: set<InhibitorId>) {
    if Emptied(s, gone) then t.phase == EXIT
    else
      && t.phase == END_SESSION && Inv(t) && (OwnDialog(t) <==> OwnDialog(s))
      && t.inhibitors == s.inhibitors - gone
  }

  lemma RemovalWithinEnd(s: State, gone: set<InhibitorId>, env: Env)
    requires Inv(s) && s.phase == END_SESSION
    ensures Removed(s, RemoveInhibitors(s, gone, env), gone)
  {
    EmptiedForces(s, gone);
    RemoveInhibitorsPhase(s, gone, env);
    RemoveInhibitorsFrame(s, gone, env);
    RemoveInhibitorsInv(s, gone, env);
  }

  lemma DropWithinEnd(s: State, c: ClientId, env: Env)
    requires Inv(s) && s.phase == END_SESSION && c < s.nextClient
    ensures Removed(s, Drop(s, c, env), JitsOf(s, c))
  {
    RemovalWithinEnd(s, JitsOf(s, c), env);
    DropInv(s, c, env);
  }

  lemma DropAfterExit(s: State, c: ClientId, env: Env)
    requires s.phase == EXIT
    ensures Drop(s, c, env).phase == EXIT
  {
    DropFrame(s, c, env);
  }

  /** The clients of one bus name, or of the whole bus. */
  function Parted(s: State, name: Option<string>): set<ClientId> {
    set c | c in s.clients && s.clients[c].bus.Some? && (name.None? || s.clients[c].bus == name)
  }

  function Elements(list: seq<ClientId>): set<ClientId> {
    set c | c in list
  }

  function TheirJits(s: State, cs: set<ClientId>): set<InhibitorId> {
    set i | i in s.inhibitors && s.inhibitors[i].client.Some? && s.inhibitors[i].client.value in cs
  }

  lemma ElementsOfLonger(list: seq<ClientId>)
    requires list != []
    ensures Elements(list) == Elements(list[..|list| - 1]) + {list[|list| - 1]}
  {
    assert list == list[..|list| - 1] + [list[|list| - 1]];
  }

  /** Whatever else happens, exactly the listed clients of the bus name are dropped. */
  lemma {:induction false} DropAllClients(s: State, list: seq<ClientId>, name: Option<string>, env: Env)
    ensures DropAll(s, list, name, env).clients == s.clients - (Parted(s, name) * Elements(list))
  {
    if list == [] {
      assert Parted(s, name) * Elements(list) == {};
    } else {
      var k := |list| - 1;
      DropAllClients(s, list[..k], name, env);
      ElementsOfLonger(list);
      DropFrame(DropAll(s, list[..k], name, env), list[k], env);
      assert Parted(s, name) * Elements(list)
          == Parted(s, name) * Elements(list[..k]) + if list[k] in Parted(s, name) then {list[k]} else {};
    }
  }

  lemma RemovedTransitive(s: State, t: State, u: State,
                          first: set<InhibitorId>, second: set<InhibitorId>, all: set<InhibitorId>)
    requires Removed(s, t, first) && (if Emptied(s, first) then u.phase == EXIT else Removed(t, u, second))
    requires all * s.inhibitors.Keys == (first + second) * s.inhibitors.Keys
    ensures Removed(s, u, all)
  {
    assert forall i | i in s.inhibitors :: i in all <==> i in first || i in second by {
      assert forall i | i in s.inhibitors :: (i in all * s.inhibitors.Keys) == (i in (first + second) * s.inhibitors.Keys);
    }
    if !Emptied(s, first) {
      assert t.inhibitors.Keys == s.inhibitors.Keys - first;
      assert s.inhibitors - all == s.inhibitors - first - second;
    }
  }

  lemma RemovedSame(s: State)
    requires Inv(s) && s.phase == END_SESSION
    ensures Removed(s, s, {})
  {
    assert s.inhibitors - {} == s.inhibitors;
  }

  lemma {:induction false} DropAllWithinEnd(s: State, list: seq<ClientId>, name: Option<string>, env: Env)
    requires Inv(s) && s.phase == END_SESSION
    ensures Removed(s, DropAll(s, list, name, env), TheirJits(s, Parted(s, name) * Elements(list)))
  {
    if list == [] {
      assert TheirJits(s, Parted(s, name) * Elements(list)) == {};
      RemovedSame(s);
    } else {
      var k := |list| - 1;
      DropAllWithinEnd(s, list[..k], name, env);
      DropAllClients(s, list[..k], name, env);
      ElementsOfLonger(list);
      DropOneMore(s, DropAll(s, list[..k], name, env), list[k], name, Parted(s, name) * Elements(list[..k]), env);
      assert Parted(s, name) * Elements(list)
          == Parted(s, name) * Elements(list[..k]) + if list[k] in Parted(s, name) then {list[k]} else {};
    }
  }

  lemma DropOneMore(s: State, t: State, c: ClientId, name: Option<string>, dropped: set<ClientId>, env: Env)
    requires Removed(s, t, TheirJits(s, dropped)) && t.clients == s.clients - dropped && dropped <= Parted(s, name)
    ensures var u := if c in t.clients && t.clients[c].bus.Some? && (name.None? || t.clients[c].bus == name)
                     then Drop(t, c, env) else t;
            Removed(s, u, TheirJits(s, dropped + if c in Parted(s, name) then {c} else {}))
  {
    var all := TheirJits(s, dropped + if c in Parted(s, name) then {c} else {});
    if c in t.clients && t.clients[c].bus.Some? && (name.None? || t.clients[c].bus == name) {
      var u := Drop(t, c, env);
      if Emptied(s, TheirJits(s, dropped)) {
        DropAfterExit(t, c, env);
      } else {
        DropWithinEnd(t, c, env);
      }
      assert JitsOf(t, c) <= t.inhibitors.Keys;
      assert all == TheirJits(s, dropped) + JitsOf(s, c);
      RemovedTransitive(s, t, u, TheirJits(s, dropped), JitsOf(t, c), all) by {
        OwnJits(s, t, c, dropped);
      }
    } else {
      assert dropped + (if c in Parted(s, name) then {c} else {}) == dropped;
    }
  }

  lemma OwnJits(s: State, t: State, c: ClientId, dropped: set<ClientId>)
    requires !Emptied(s, TheirJits(s, dropped)) ==> t.inhibitors == s.inhibitors - TheirJits(s, dropped)
    ensures !Emptied(s, TheirJits(s, dropped)) ==>
              JitsOf(t, c) + TheirJits(s, dropped) == JitsOf(s, c) + TheirJits(s, dropped)
  {
  }

  // ----- event by event -----

  /** After removals within the end, the session exits as well if no client is left. */
  lemma ExitIfNobodyLeft(s: State, t: State, gone: set<InhibitorId>, env: Env)
    requires s.phase == END_SESSION && Removed(s, t, gone)
    ensures ExitIfEmpty(t, env).phase == EXIT <==> Emptied(s, gone) || t.clients == map[]
    ensures ExitIfEmpty(t, env).phase >= END_SESSION
  {
    EndPhaseFrame(t, env);
  }

  lemma NobodyLeft(s: State, t: State, dropped: set<ClientId>)
    requires t.clients == s.clients - dropped
    ensures t.clients == map[] <==> s.clients.Keys <= dropped
  {
    assert t.clients.Keys == s.clients.Keys - dropped;
    assert t.clients == map[] <==> t.clients.Keys == {};
    assert s.clients.Keys <= dropped + (s.clients.Keys - dropped);
  }

  lemma ClientGoneExits(s: State, c: ClientId, env: Env)
    requires Inv(s) && s.phase == END_SESSION
    ensures ClientGone(s, c, env).phase == EXIT <==>
              && c in s.clients && s.clients[c].bus.None? && s.clients[c].watched
              && (s.clients.Keys <= {c} || Emptied(s, JitsOf(s, c)))
  {
    if c in s.clients && s.clients[c].bus.None? && s.clients[c].watched {
      DropWithinEnd(s, c, env);
      DropFrame(s, c, env);
      NobodyLeft(s, Drop(s, c, env), {c});
      ExitIfNobodyLeft(s, Drop(s, c, env), JitsOf(s, c), env);
    }
  }

  lemma AllWalked(s: State, order: seq<ClientId>, name: Option<string>)
    requires Walks(order, s.clients)
    ensures Parted(s, name) * Elements(order) == Parted(s, name)
  {
  }

  lemma BusLostExits(s: State, env: Env)
    requires Inv(s) && s.phase == END_SESSION && Walks(env.order, s.clients)
    ensures BusLost(s, env).phase == EXIT <==>
              s.clients.Keys <= Parted(s, None) || Emptied(s, TheirJits(s, Parted(s, None)))
  {
    var t := DropAll(s, env.order, None, env);
    AllWalked(s, env.order, None);
    DropAllWithinEnd(s, env.order, None, env);
    DropAllClients(s, env.order, None, env);
    NobodyLeft(s, t, Parted(s, None));
    ExitIfNobodyLeft(s, t, TheirJits(s, Parted(s, None)), env);
  }

  /** The inhibitors that go with a bus name. */
  function OfName(s: State, name: string): set<InhibitorId> {
    OnBus(s, name) + TheirJits(s, Parted(s, Some(name)))
  }

  lemma BusNameClients(s: State, name: string, env: Env)
    requires Walks(env.order, s.clients)
    ensures var r := RemoveInhibitors(s, OnBus(s, name), env);
            && r.clients == s.clients
            && DropAll(r, env.order, Some(name), env).clients == s.clients - Parted(s, Some(name))
  {
    var r := RemoveInhibitors(s, OnBus(s, name), env);
    RemoveInhibitorsFrame(s, OnBus(s, name), env);
    DropAllClients(r, env.order, Some(name), env);
    assert Parted(r, Some(name)) == Parted(s, Some(name));
    AllWalked(r, env.order, Some(name));
  }

  lemma BusNameJits(s: State, r: State, name: string)
    requires r.clients == s.clients && r.inhibitors == s.inhibitors - OnBus(s, name)
    ensures OnBus(s, name) + TheirJits(r, Parted(r, Some(name))) == OfName(s, name)
  {
    assert Parted(r, Some(name)) == Parted(s, Some(name));
  }

  lemma BusNameDropped(s: State, name: string, env: Env)
    requires Inv(s) && s.phase == END_SESSION && Walks(env.order, s.clients)
    ensures Removed(s, DropAll(RemoveInhibitors(s, OnBus(s, name), env), env.order, Some(name), env), OfName(s, name))
  {
    var r := RemoveInhibitors(s, OnBus(s, name), env);
    RemovalWithinEnd(s, OnBus(s, name), env);
    RemoveInhibitorsFrame(s, OnBus(s, name), env);
    BusNameJits(s, r, name);
    RestDropped(s, r, name, env);
  }

  lemma RestDropped(s: State, r: State, name: string, env: Env)
    requires Removed(s, r, OnBus(s, name)) && Walks(env.order, r.clients)
    requires OnBus(s, name) + TheirJits(r, Parted(r, Some(name))) == OfName(s, name)
    ensures Removed(s, DropAll(r, env.order, Some(name), env), OfName(s, name))
  {
    var t := DropAll(r, env.order, Some(name), env);
    if Emptied(s, OnBus(s, name)) {
      DropAllOnward(r, env.order, Some(name), env);
    } else {
      AllWalked(r, env.order, Some(name));
      DropAllWithinEnd(r, env.order, Some(name), env);
    }
    RemovedTransitive(s, r, t, OnBus(s, name), TheirJits(r, Parted(r, Some(name))), OfName(s, name));
  }

  lemma BusNameLostExits(s: State, name: string, env: Env)
    requires Inv(s) && s.phase == END_SESSION && Walks(env.order, s.clients)
    ensures BusNameLost(s, name, env).phase == EXIT <==>
              name != "" && (s.clients.Keys <= Parted(s, Some(name)) || Emptied(s, OfName(s, name)))
  {
    if name != "" {
      var t := DropAll(RemoveInhibitors(s, OnBus(s, name), env), env.order, Some(name), env);
      BusNameClients(s, name, env);
      BusNameDropped(s, name, env);
      NobodyLeft(s, t, Parted(s, Some(name)));
      ExitIfNobodyLeft(s, t, OfName(s, name), env);
    }
  }

  lemma UninhibitExits(s: State, cookie: nat, env: Env)
    requires Inv(s) && s.phase == END_SESSION
    ensures Uninhibit(s, cookie, env).phase == EXIT <==> Emptied(s, WithCookie(s, cookie))
  {
    RemovalWithinEnd(s, WithCookie(s, cookie), env);
  }

  lemma AcceptExits(s: State, env: Env)
    requires s.phase == END_SESSION
    ensures Accept(s, env).phase == EXIT <==> OwnDialog(s)
  {
    EndPhaseFrame(s.(dialog := None, mode := Force), env);
  }

  lemma AnswerExits(s: State, c: ClientId, ok: bool, last: bool, cancel: bool, env: Env)
    requires Inv(s) && s.phase == END_SESSION
    ensures Answer(s, c, ok, last, cancel, env).phase == EXIT <==>
              !cancel && (LastWord(s, c, ok, last) || ((ok || s.mode == Force) && Emptied(s, JitsOf(s, c))))
  {
    if cancel {
      CancelResult(s, env);
    } else {
      AnswerExitsExactlyWhen(s, c, ok, last, env);
      EmptiedForces(s, JitsOf(s, c));
    }
  }

  lemma PhaseTimeoutExits(s: State, env: Env)
    requires Inv(s) && s.phase == END_SESSION
    ensures PhaseTimeout(s, env).phase == EXIT
  {
    EndPhaseFrame(s.(phaseTimer := 0), env);
  }

  /** The end is over: time is up, the last word is in, or nobody is left. */
  predicate Concludes(s: State, e: Event) {
    match e
    case EvPhaseTimeout => true
    case EvAnswer(c, ok, last, cancel) => c in s.clients && !cancel && LastWord(s, c, ok, last)
    case EvClientGone(c) => c in s.clients && s.clients[c].bus.None? && s.clients[c].watched && s.clients.Keys <= {c}
    case EvBusNameLost(name) => name != "" && s.clients.Keys <= Parted(s, Some(name))
    case EvBusLost => s.clients.Keys <= Parted(s, None)
    case _ => false
  }

  /** A logout dialog left over from the query is accepted, by the user or by itself. */
  predicate CutsShort(s: State, e: Event) {
    match e
    case EvAccept => OwnDialog(s)
    case EvUninhibit(cookie) => Emptied(s, WithCookie(s, cookie))
    case EvAnswer(c, ok, last, cancel) =>
      c in s.clients && !cancel && (ok || s.mode == Force) && Emptied(s, JitsOf(s, c))
    case EvClientGone(c) => c in s.clients && s.clients[c].bus.None? && s.clients[c].watched && Emptied(s, JitsOf(s, c))
    case EvBusNameLost(name) => name != "" && Emptied(s, OfName(s, name))
    case EvBusLost => Emptied(s, TheirJits(s, Parted(s, None)))
    case _ => false
  }

  /** What takes the session from its end to the exit. */
  predicate Exits(s: State, e: Event) {
    Concludes(s, e) || CutsShort(s, e)
  }

  lemma LeaveExits(s: State, e: Event, env: Env)
    requires Inv(s) && s.phase == END_SESSION && Walks(env.order, s.clients)
    requires e.EvClientGone? || e.EvBusNameLost? || e.EvBusLost?
    ensures ClientStep(s, e, env).phase == EXIT <==> Exits(s, e)
  {
    match e
    case EvClientGone(c) => ClientGoneExits(s, c, env);
    case EvBusNameLost(name) => BusNameLostExits(s, name, env);
    case EvBusLost => BusLostExits(s, env);
    case _ =>
  }

  lemma SpeakExits(s: State, e: Event, env: Env)
    requires Inv(s) && s.phase == END_SESSION && (e.EvAnswer? || e.EvUninhibit?)
    ensures ClientStep(s, e, env).phase == EXIT <==> Exits(s, e)
  {
    match e
    case EvAnswer(c, ok, last, cancel) => AnswerExits(s, c, ok, last, cancel, env);
    case EvUninhibit(cookie) => UninhibitExits(s, cookie, env);
    case _ =>
  }

  /** The other events of clients leave the phase alone. */
  lemma JoinStays(s: State, e: Event, env: Env)
    requires s.phase == END_SESSION && (e.EvConnect? || e.EvRegisterXsmp? || e.EvRegisterDBus? || e.EvInhibit?)
    ensures ClientStep(s, e, env).phase == END_SESSION
  {
  }

  lemma OwnEventExits(s: State, e: Event, env: Env)
    requires Inv(s) && s.phase == END_SESSION && !FromClient(e)
    ensures OwnStep(s, e, env).phase == EXIT <==> Exits(s, e)
  {
    if e.EvPhaseTimeout? {
      PhaseTimeoutExits(s, env);
    } else if e.EvAccept? {
      AcceptExits(s, env);
    } else if e.EvDecline? {
      DeclineStays(s, env);
    } else {
      OthersStay(s, e, env);
    }
  }

  lemma DeclineStays(s: State, env: Env)
    requires s.phase == END_SESSION
    ensures Decline(s, env).phase != EXIT
  {
    CancelResult(s.(dialog := None), env);
  }

  lemma OthersStay(s: State, e: Event, env: Env)
    requires Shape(s) && s.phase == END_SESSION
    requires !FromClient(e) && !e.EvPhaseTimeout? && !e.EvAccept? && !e.EvDecline?
    ensures OwnStep(s, e, env).phase == END_SESSION
  {
  }

  /** Within the end, exactly these events are the last. */
  lemma ExitsExactlyWhen(s: State, e: Event, env: Env)
    requires Inv(s) && s.phase == END_SESSION && Possible(s, e, env)
    ensures Step(s, e, env).phase == EXIT <==> Exits(s, e)
  {
    if !FromClient(e) {
      OwnEventExits(s, e, env);
    } else if e.EvConnect? || e.EvRegisterXsmp? || e.EvRegisterDBus? || e.EvInhibit? {
      JoinStays(s, e, env);
    } else if e.EvAnswer? || e.EvUninhibit? {
      SpeakExits(s, e, env);
    } else {
      LeaveExits(s, e, env);
    }
  }

  // ----- whole runs -----

  lemma LastWordCounted(r: Round, s: State, c: ClientId, ok: bool, last: bool)
    requires RoundOk(r, s) && s.phase == END_SESSION && LastWord(s, c, ok, last)
    ensures r.sent <= r.heard + multiset{c}
  {
    RemoveFirstCounts(s.query, c);
    assert multiset(s.query) - multiset{c} == multiset{};
    forall x: ClientId
      ensures r.sent[x] <= (r.heard + multiset{c})[x]
    {
      assert (multiset(s.query) - multiset{c})[x] == 0 && r.sent[x] <= (multiset(s.query) + r.heard)[x];
    }
  }

  /** As a bystander sees it: time is up, everybody who was told has answered, or nobody is left. */
  predicate SeenToConclude(r: Round, s: State, e: Event) {
    || e.EvPhaseTimeout?
    || (Answers(s, e) && r.sent <= r.heard + multiset{e.client})
    || (e.EvClientGone? && s.clients.Keys <= {e.client})
    || (e.EvBusNameLost? && s.clients.Keys <= Parted(s, Some(e.name)))
    || (e.EvBusLost? && s.clients.Keys <= Parted(s, None))
  }

  /**
   On every run: the session leaves its end before everybody who was told to
   go has answered only when time is up, when no client is left, or when a
   logout dialog is still up and is accepted by the user or loses its last row.
   */
  lemma EndIsNotCutShort(apps: map<App, AppInfo>, idleCounter: bool, es: seq<(Event, Env)>, e: Event, env: Env)
    requires PossibleRun(Initial(apps, idleCounter), es) && Possible(Run(Initial(apps, idleCounter), es), e, env)
    ensures var s := Run(Initial(apps, idleCounter), es);
            s.phase == END_SESSION && Step(s, e, env).phase == EXIT ==>
              SeenToConclude(Count(Initial(apps, idleCounter), es), s, e) || CutsShort(s, e)
  {
    var s := Run(Initial(apps, idleCounter), es);
    var r := Count(Initial(apps, idleCounter), es);
    if s.phase == END_SESSION {
      RunInv(apps, idleCounter, es);
      CountOk(apps, idleCounter, es);
      ExitsExactlyWhen(s, e, env);
      if e.EvAnswer? && Concludes(s, e) {
        LastWordCounted(r, s, e.client, e.ok, e.last);
      }
    }
  }

  /** So, with no such dialog up, the end runs its course. */
  lemma ExitsInOrder(s: State, e: Event, env: Env)
    requires Inv(s) && s.phase == END_SESSION && Possible(s, e, env) && !OwnDialog(s)
    ensures Step(s, e, env).phase == EXIT <==> Concludes(s, e)
  {
    ExitsExactlyWhen(s, e, env);
  }
}
