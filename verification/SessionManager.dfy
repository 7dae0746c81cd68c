/**
 The session manager as it runs: one object, updated in place by its event
 handlers, with the inhibit dialog and the presence object called back in the
 middle of them. Each handler has exactly the effect of the function of the
 same purpose in module Session.
 */
module SessionManager {
  import opened Wrappers
  import opened Session
  import opened CookieSupply
  import opened SessionInvariant
  import P = Presence
  import SessionFrames
  import SessionRegistration

  ghost function Elements<T>(list: seq<T>): set<T> {
    set x | x in list
  }

  lemma ElementsGrow<T>(x: T, list: seq<T>)
    ensures Elements([x] + list) == Elements(list) + {x}
    ensures Elements<T>([]) == {}
    ensures (list == []) == (Elements(list) == {})
  {
    if list != [] {
      assert list[0] in Elements(list);
    }
  }

  /** The list of inhibitors on the screen, a row inserted or removed at a time. */
  class InhibitDialog {
    const action: Action
    var rows: seq<InhibitorId>
    var done: bool

    ghost predicate Valid()
      reads this
    {
      !done && NoDuplicates(rows)
    }

    ghost function Rows(): set<InhibitorId>
      reads this
    {
      Elements(rows)
    }

    constructor (inhibitors: map<InhibitorId, Inhibitor>, action: Action)
      ensures Valid() && this.action == action && Rows() == inhibitors.Keys
    {
      this.action := action;
      done := false;
      rows := [];
      new;
      var todo := inhibitors.Keys;
      while todo != {}
        invariant todo <= inhibitors.Keys
        invariant Valid() && Rows() == inhibitors.Keys - todo
      {
        var id :| id in todo;
        ElementsGrow(id, rows);
        assert id !in Rows();
        rows := [id] + rows;
        todo := todo - {id};
      }
    }

    method OnInhibitorAdded(id: InhibitorId)
      requires Valid()
      modifies this`rows
      ensures Valid() && Rows() == old(Rows()) + {id}
    {
      if done {
        return;
      }
      ElementsGrow(id, rows);
      if id !in rows {
        rows := [id] + rows;
      }
    }

    method OnInhibitorRemoved(id: InhibitorId) returns (emptied: bool)
      requires Valid()
      modifies this`rows
      ensures Valid() && Rows() == old(Rows()) - {id}
      ensures emptied <==> Rows() == {}
    {
      if done {
        return false;
      }
      var k := 0;
      while k < |rows| && rows[k] != id
        invariant 0 <= k <= |rows|
        invariant id !in rows[..k]
      {
        k := k + 1;
      }
      if k < |rows| {
        ghost var was := rows;
        rows := rows[..k] + rows[k + 1..];
        assert was == was[..k] + [id] + was[k + 1..];
        assert id !in rows;
      }
      emptied := rows == [];
      ElementsGrow(id, rows);
    }

    /** Only the first response counts. */
    method OnResponse() returns (first: bool)
      modifies this`done
      ensures done && first == !old(done)
    {
      first := !done;
      done := true;
    }
  }

  /** One step along the walk over the clients. */
  lemma OneFurther(order: seq<ClientId>, i: nat, keep: set<ClientId>, n: Notice)
    requires i < |order|
    ensures Notices(order[..i + 1], keep, n)
         == Notices(order[..i], keep, n) + if order[i] in keep then [Send(order[i], n)] else []
    ensures Prepended(order[..i + 1], keep) == (if order[i] in keep then [order[i]] else []) + Prepended(order[..i], keep)
  {
    assert order[..i + 1][..i] == order[..i];
  }

  lemma NextJit(s: State, list: seq<ClientId>, i: nat, env: Env)
    requires i < |list|
    ensures AddJits(s, list[..i + 1], env) == AddJit(AddJits(s, list[..i], env), list[i], env)
  {
    assert list[..i + 1][..i] == list[..i];
  }

  // ----- reports of removed inhibitors -----

  /** What one report of a removal comes to. */
  function Reported(s: State, id: InhibitorId, env: Env): State {
    var t := Session.UpdateIdle(s.(dialog := WithoutRows(s.dialog, {id})));
    if t.dialog.Some? && t.dialog.value.rows == {} then Session.Accept(t, env) else t
  }

  function ReportedAll(s: State, ids: seq<InhibitorId>, env: Env): State {
    if ids == [] then s else Reported(ReportedAll(s, ids[..|ids| - 1], env), ids[|ids| - 1], env)
  }

  predicate Mirrors(s: State) {
    s.dialog.Some? ==> s.dialog.value.rows == s.inhibitors.Keys
  }

  /** Before the last report, nothing but rows and the idle watch have changed. */
  lemma {:induction false} ReportedSoFar(s: State, ids: seq<InhibitorId>, k: nat, gone: set<InhibitorId>, env: Env)
    requires NoDuplicates(ids) && Elements(ids) == gone * s.inhibitors.Keys && Mirrors(s) && k < |ids|
    ensures var t := s.(inhibitors := s.inhibitors - gone);
            var u := ReportedAll(t, ids[..k], env);
            && u == t.(presence := u.presence, dialog := u.dialog)
            && u.presence == (if k == 0 then s.presence else P.SetEnabled(s.presence, !Inhibited(t.inhibitors, FlagIdle)))
            && u.dialog == (if s.dialog.None? then None
                            else Some(s.dialog.value.(rows := s.inhibitors.Keys - Elements(ids[..k]))))
            && (s.dialog.Some? ==> ids[k] in u.dialog.value.rows && t.inhibitors.Keys <= u.dialog.value.rows - {ids[k]})
  {
    assert ids[k] in Elements(ids);
    assert ids[k] !in Elements(ids[..k]);
    if k == 0 {
      assert Elements(ids[..0]) == {};
      assert s.inhibitors.Keys - {} == s.inhibitors.Keys;
    } else {
      assert ids[..k][..k - 1] == ids[..k - 1];
      ReportedSoFar(s, ids, k - 1, gone, env);
      assert Elements(ids[..k]) == Elements(ids[..k - 1]) + {ids[k - 1]} by {
        assert ids[..k] == ids[..k - 1] + [ids[k - 1]];
      }
      assert s.inhibitors.Keys - Elements(ids[..k - 1]) - {ids[k - 1]} == s.inhibitors.Keys - Elements(ids[..k]);
    }
  }

  /** The last report finds the idle watch right, and takes the last row. */
  lemma LastReported(s: State, u: State, id: InhibitorId, gone: set<InhibitorId>, env: Env)
    requires id in gone && id in s.inhibitors && Mirrors(s)
    requires u == s.(inhibitors := s.inhibitors - gone, presence := u.presence, dialog := u.dialog)
    requires u.presence == s.presence || u.presence == P.SetEnabled(s.presence, !Inhibited(u.inhibitors, FlagIdle))
    requires if s.dialog.None? then u.dialog.None?
             else u.dialog.Some? && u.dialog.value.action == s.dialog.value.action
                  && u.dialog.value.rows - {id} == s.inhibitors.Keys - gone
    ensures Reported(u, id, env) == Session.RemoveInhibitors(s, gone, env)
  {
    assert !(gone !! s.inhibitors.Keys);
    EnabledTwice(s.presence, !Inhibited(u.inhibitors, FlagIdle));
  }

  /** Reporting removals one by one comes to the same as removing all at once. */
  lemma ReportsAddUp(s: State, ids: seq<InhibitorId>, gone: set<InhibitorId>, env: Env)
    requires NoDuplicates(ids) && Elements(ids) == gone * s.inhibitors.Keys && Mirrors(s)
    ensures ReportedAll(s.(inhibitors := s.inhibitors - gone), ids, env) == Session.RemoveInhibitors(s, gone, env)
  {
    var t := s.(inhibitors := s.inhibitors - gone);
    ElementsGrow(0, ids);
    if ids == [] {
      NothingToReport(s, gone);
    } else {
      var k := |ids| - 1;
      assert ids[k] in Elements(ids);
      ReportedSoFar(s, ids, k, gone, env);
      LastReport(s, ids, gone);
      LastReported(s, ReportedAll(t, ids[..k], env), ids[k], gone, env);
    }
  }

  lemma NothingToReport(s: State, gone: set<InhibitorId>)
    requires gone * s.inhibitors.Keys == {}
    ensures s.(inhibitors := s.inhibitors - gone) == s && gone !! s.inhibitors.Keys
  {
    assert forall i | i in s.inhibitors :: i !in gone * s.inhibitors.Keys;
    assert s.inhibitors - gone == s.inhibitors;
  }

  lemma EnabledTwice(p: P.PresenceState, enabled: bool)
    ensures P.SetEnabled(P.SetEnabled(p, enabled), enabled) == P.SetEnabled(p, enabled)
  {
  }

  lemma LastReport(s: State, ids: seq<InhibitorId>, gone: set<InhibitorId>)
    requires ids != [] && Elements(ids) == gone * s.inhibitors.Keys
    ensures var k := |ids| - 1; s.inhibitors.Keys - Elements(ids[..k]) - {ids[k]} == s.inhibitors.Keys - gone
  {
    var k := |ids| - 1;
    assert Elements(ids) == Elements(ids[..k]) + {ids[k]} by {
      assert ids == ids[..k] + [ids[k]];
    }
    assert s.inhibitors.Keys - gone == s.inhibitors.Keys - gone * s.inhibitors.Keys;
    assert s.inhibitors.Keys - Elements(ids[..k]) - {ids[k]} == s.inhibitors.Keys - (Elements(ids[..k]) + {ids[k]});
  }

  lemma RemovalMirrors(s: State, gone: set<InhibitorId>, env: Env)
    requires Mirrors(s)
    ensures Mirrors(Session.RemoveInhibitors(s, gone, env))
  {
    EndPhaseFrame(Without(s, gone).(dialog := None, mode := Force), env);
  }

  /** The part of the walk over the clients that lies behind. */
  ghost function Walked(order: seq<ClientId>, i: nat): seq<ClientId> {
    if i <= |order| then order[..i] else order
  }

  lemma NextWalked(order: seq<ClientId>, i: nat)
    requires i < |order|
    ensures var more := Walked(order, i + 1);
            more != [] && more[..|more| - 1] == Walked(order, i) && more[|more| - 1] == order[i]
  {
  }

  lemma WholeOrder(order: seq<ClientId>)
    ensures Walked(order, 0) == [] && Walked(order, |order|) == order
  {
  }

  lemma {:induction false} RemoveFromList(list: seq<nat>, x: nat)
    requires NoDuplicates(list)
    ensures NoDuplicates(RemoveFirst(list, x)) && Elements(RemoveFirst(list, x)) == Elements(list) - {x}
  {
    if list != [] {
      assert list == [list[0]] + list[1..];
      ElementsGrow(list[0], list[1..]);
      assert list[0] !in Elements(list[1..]);
      if list[0] != x {
        RemoveFromList(list[1..], x);
        ElementsGrow(list[0], RemoveFirst(list[1..], x));
        assert list[0] !in Elements(RemoveFirst(list[1..], x));
      }
    }
  }

  datatype Refusal = NotInRunning | LockedDown | AlreadyRegistered | ForcedLogout | MissingField | InvalidCookie

  class Manager {
    var phase: Phase
    var phaseTimer: nat
    var queryTimer: nat
    var sources: nat
    var pending: seq<App>
    var query: seq<ClientId>
    var next: seq<ClientId>
    var mode: Mode
    var ending: Ending
    var dialog: InhibitDialog?
    var clients: map<ClientId, Client>
    var nextClient: ClientId
    var inhibitors: map<InhibitorId, Inhibitor>
    var nextInhibitor: InhibitorId
    var apps: map<App, AppInfo>
    const presence: P.PresenceMonitor
    ghost var log: seq<Message>
    ghost var trail: seq<Phase>

    /** The state that the functions of module Session speak of. */
    ghost function Now(): State
      reads this, presence, presence.monitor, dialog
    {
      State(phase, phaseTimer, queryTimer, sources, Elements(pending), query, next, mode, ending,
            if dialog == null then None else Some(Dialog(dialog.action, dialog.Rows())),
            clients, nextClient, inhibitors, nextInhibitor, apps, presence.State(), log, trail)
    }

    /** No application is pending twice, and an open dialog shows the inhibitors there are. */
    ghost predicate Valid()
      reads this, dialog
    {
      && NoDuplicates(pending)
      && (dialog != null ==> dialog.Valid() && dialog.Rows() == inhibitors.Keys)
    }

    constructor (apps: map<App, AppInfo>, idleCounter: bool)
      ensures Valid() && Now() == Initial(apps, idleCounter)
    {
      phase, phaseTimer, queryTimer, sources := STARTUP, 0, 0, 0;
      pending, query, next := [], [], [];
      mode, ending := Normal, NoEnding;
      dialog := null;
      clients, nextClient, inhibitors, nextInhibitor := map[], 0, map[], 0;
      this.apps := apps;
      var p := new P.PresenceMonitor(idleCounter);
      presence := p;
      log, trail := [], [];
    }

    // ----- sending -----

    /** Sends to those in `keep`, and expects an answer from each of them. */
    method Ask(order: seq<ClientId>, keep: set<ClientId>, n: Notice)
      requires query == []
      modifies this`log, this`query
      ensures log == old(log) + Notices(order, keep, n) && query == Prepended(order, keep)
    {
      for i := 0 to |order|
        invariant log == old(log) + Notices(order[..i], keep, n)
        invariant query == Prepended(order[..i], keep)
      {
        OneFurther(order, i, keep, n);
        if order[i] in keep {
          log := log + [Send(order[i], n)];
          query := [order[i]] + query;
        }
      }
      assert order[..|order|] == order;
    }

    method Tell(order: seq<ClientId>, n: Notice)
      modifies this`log
      ensures log == old(log) + Notices(order, clients.Keys, n)
    {
      for i := 0 to |order|
        invariant log == old(log) + Notices(order[..i], clients.Keys, n)
      {
        OneFurther(order, i, clients.Keys, n);
        if order[i] in clients {
          log := log + [Send(order[i], n)];
        }
      }
      assert order[..|order|] == order;
    }

    // ----- inhibitors -----

    method IsInhibited(f: Flag) returns (found: bool)
      ensures found == Inhibited(inhibitors, f)
    {
      var todo := inhibitors.Keys;
      while todo != {}
        invariant todo <= inhibitors.Keys
        invariant forall i | i in inhibitors.Keys - todo :: f !in inhibitors[i].flags
      {
        var i :| i in todo;
        if f in inhibitors[i].flags {
          return true;
        }
        todo := todo - {i};
      }
      return false;
    }

    method UpdateIdle()
      modifies presence, presence.monitor
      ensures Now() == Session.UpdateIdle(old(Now()))
    {
      var inhibited := IsInhibited(FlagIdle);
      presence.SetIdleEnabled(!inhibited);
    }

    method HasCookie(cookie: nat) returns (found: bool)
      ensures found <==> cookie in Cookies(inhibitors)
    {
      var todo := inhibitors.Keys;
      while todo != {}
        invariant todo <= inhibitors.Keys
        invariant forall i | i in inhibitors.Keys - todo :: inhibitors[i].cookie != cookie
      {
        var i :| i in todo;
        if inhibitors[i].cookie == cookie {
          return true;
        }
        todo := todo - {i};
      }
      return false;
    }

    /** Draws until an unused cookie turns up, which it does. */
    method GenerateUniqueCookie(env: Env) returns (cookie: nat)
      requires Fair(env.random) && |inhibitors| < MAX_COOKIE
      ensures cookie == FreshCookie(env.random, Cookies(inhibitors))
    {
      ghost var used := Cookies(inhibitors);
      CookiesSize(inhibitors);
      FreshCookieIsFresh(env.random, used);
      ghost var bound: nat :| FirstFresh(env.random, used, bound);
      var k: nat := 0;
      cookie := env.random(k);
      var taken := HasCookie(cookie);
      while taken
        invariant k <= bound && cookie == env.random(k) && (taken <==> cookie in used)
        invariant forall j: nat | j < k :: env.random(j) in used
        decreases bound - k
      {
        k := k + 1;
        cookie := env.random(k);
        taken := HasCookie(cookie);
      }
      FreshCookieAt(env.random, used, k);
    }

    method AddInhibitor(inh: Inhibitor)
      requires Valid()
      modifies this`inhibitors, this`nextInhibitor, presence, presence.monitor, dialog
      ensures Valid() && Now() == Session.AddInhibitor(old(Now()), inh)
    {
      var id := nextInhibitor;
      nextInhibitor := nextInhibitor + 1;
      inhibitors := inhibitors[id := inh];
      UpdateIdle();
      if dialog != null {
        dialog.OnInhibitorAdded(id);
      }
    }

    // ----- phases -----

    method ArmPhaseTimer()
      modifies this`phaseTimer, this`sources
      ensures Now() == Session.ArmPhaseTimer(old(Now()))
    {
      sources := sources + 1;
      phaseTimer := sources;
    }

    method ClearLists()
      modifies this`pending, this`query, this`next
      ensures pending == [] && query == [] && next == []
      ensures Now() == old(Now()).(pending := {}, query := [], next := [])
    {
      pending, query, next := [], [], [];
      assert Elements(pending) == {};
    }

    method ResetPhase()
      modifies this`pending, this`query, this`next, this`queryTimer, this`phaseTimer, this`trail
      ensures pending == [] && Now() == Reset(old(Now()))
    {
      ClearLists();
      if queryTimer > 0 {
        queryTimer := 0;
      }
      if phaseTimer > 0 {
        phaseTimer := 0;
      }
      trail := trail + [phase];
    }

    method StartPhase(env: Env)
      requires Valid()
      modifies this, presence, presence.monitor
      ensures Valid() && Now() == Session.StartPhase(old(Now()), env) && dialog == old(dialog)
      decreases EXIT - phase, 2
    {
      ResetPhase();
      if phase <= APPLICATION {
        DoPhaseStartup(env);
      } else if phase == RUNNING {
        UpdateIdle();
      } else if phase == QUERY_END_SESSION {
        DoPhaseQueryEndSession(env);
      } else if phase == END_SESSION {
        DoPhaseEndSession(env);
      } else {
        DoPhaseExit(env);
      }
    }

    method FinishPhase(env: Env) returns (startNextPhase: bool)
      modifies this`pending, this`query, this`next, this`phaseTimer, this`log
      ensures pending == [] && Now() == Finish(old(Now()), env)
      ensures startNextPhase == !Stays(old(Now()), env)
    {
      startNextPhase := true;
      ClearLists();
      if phaseTimer > 0 {
        phaseTimer := 0;
      }
      if phase == RUNNING {
        if env.lockedDown {
          startNextPhase := false;
        }
      } else if phase == END_SESSION {
        if env.autoSave {
          MaybeSaveSession(env);
        }
      } else if phase == EXIT {
        startNextPhase := false;
        log := log + [Quit(ending)];
      }
    }

    method EndPhase(env: Env)
      requires Valid()
      modifies this, presence, presence.monitor
      ensures Valid() && Now() == Session.EndPhase(old(Now()), env) && dialog == old(dialog)
      decreases EXIT - phase, 0
    {
      var startNextPhase := FinishPhase(env);
      if startNextPhase {
        phase := phase + 1;
        assert Now() == Advance(Finish(old(Now()), env));
        StartPhase(env);
      }
    }

    method MaybeSaveSession(env: Env)
      modifies this`log
      ensures log == if env.loginWindow then old(log) else old(log) + [SaveSession]
    {
      if !env.loginWindow {
        log := log + [SaveSession];
      }
    }

    /** Launches what belongs to this phase, and remembers what it has to wait for. */
    method StartApps(env: Env)
      requires pending == []
      modifies this`pending
      ensures NoDuplicates(pending)
      ensures Elements(pending) == if phase < APPLICATION then Startable(Now(), env) else {}
    {
      var todo := apps.Keys;
      while todo != {}
        invariant todo <= apps.Keys && NoDuplicates(pending)
        invariant Elements(pending) == if phase < APPLICATION then Startable(Now(), env) - todo else {}
      {
        var a :| a in todo;
        ElementsGrow(a, pending);
        if apps[a].phase == phase && !apps[a].disabled && !apps[a].delayed && a in env.launched && phase < APPLICATION {
          assert a !in Elements(pending);
          pending := [a] + pending;
        }
        todo := todo - {a};
      }
    }

    method DoPhaseStartup(env: Env)
      requires Valid() && phase <= APPLICATION && pending == []
      modifies this, presence, presence.monitor
      ensures Valid() && dialog == old(dialog)
      ensures var t := Session.StartApps(old(Now()), env); Now() == if GoesOn(t) then Session.EndPhase(t, env) else t
      decreases EXIT - phase, 1
    {
      StartApps(env);
      ElementsGrow(0, pending);
      if pending != [] {
        if phase < APPLICATION {
          ArmPhaseTimer();
        }
      } else {
        EndPhase(env);
      }
    }

    method DoPhaseQueryEndSession(env: Env)
      requires phase == QUERY_END_SESSION && query == []
      modifies this`log, this`query, this`queryTimer, this`sources
      ensures Now() == StartQuery(old(Now()), env)
      ensures forall c :: c in query <==> c in env.order && c in clients && c in env.queryOk
    {
      PrependedMembers(env.order, clients.Keys * env.queryOk);
      Ask(env.order, clients.Keys * env.queryOk, AskQuery(mode == Force));
      sources := sources + 1;
      queryTimer := sources;
    }

    method DoPhaseEndSession(env: Env)
      requires Valid() && phase == END_SESSION && query == [] && phaseTimer == 0
      modifies this, presence, presence.monitor
      ensures Valid() && dialog == old(dialog)
      ensures var t := StartEnd(old(Now()), env); Now() == if GoesOn(t) then Session.EndPhase(t, env) else t
      decreases EXIT - phase, 1
    {
      if |clients| > 0 {
        ArmPhaseTimer();
        Ask(env.order, clients.Keys * env.endOk, AskEnd(mode == Force, env.autoSave, false));
      } else {
        assert clients == map[];
        EndPhase(env);
      }
    }

    method DoPhaseExit(env: Env)
      requires Valid() && phase == EXIT
      modifies this, presence, presence.monitor
      ensures Valid() && dialog == old(dialog)
      ensures var s := old(Now());
              Now() == Session.EndPhase(s.(log := s.log + Notices(env.order, s.clients.Keys, TellStop)), env)
      decreases EXIT - phase, 1
    {
      Tell(env.order, TellStop);
      EndPhase(env);
    }

    /** The second round of the end. */
    method DoPhaseEndSessionPart2(env: Env)
      requires next != [] && query == []
      modifies this`log, this`query, this`next
      ensures Now() == SecondRound(old(Now()), env)
    {
      Ask(next, env.lastOk, AskEnd(mode == Force, env.autoSave, true));
      next := [];
    }

    // ----- the inhibit dialog -----

    method DoInhibitDialogAction(a: Action, env: Env)
      requires Valid()
      modifies this, presence, presence.monitor
      ensures Valid() && dialog == old(dialog)
      ensures Now() == CarryOut(old(Now()), a, env)
    {
      if EndsSession(a) {
        mode := Force;
        EndPhase(env);
      } else if a != ActSwitchUser || !env.switchLocked {
        log := log + [Perform(a)];
      }
    }

    /** The dialog accepts, by a click or by itself. */
    method Accept(env: Env)
      requires Valid()
      modifies this, presence, presence.monitor, dialog
      ensures Valid() && dialog == null
      ensures Now() == Session.Accept(old(Now()), env)
    {
      if dialog == null {
        return;
      }
      var first := dialog.OnResponse();
      if first {
        var action := dialog.action;
        dialog := null;
        DoInhibitDialogAction(action, env);
      }
    }

    /** Both listeners hear of a removal: the idle watch, then the dialog, which accepts itself without rows. */
    method OnInhibitorRemoved(id: InhibitorId, env: Env)
      requires NoDuplicates(pending) && (dialog != null ==> dialog.Valid() && inhibitors.Keys <= dialog.Rows() - {id})
      modifies this, presence, presence.monitor, dialog
      ensures Now() == Reported(old(Now()), id, env)
      ensures NoDuplicates(pending) && (dialog == null || (dialog == old(dialog) && dialog.Valid()))
    {
      UpdateIdle();
      if dialog != null {
        var emptied := dialog.OnInhibitorRemoved(id);
        if emptied {
          Accept(env);
        }
      }
    }

    /** The list of what is about to be removed, built by prepending. */
    method Matching(gone: set<InhibitorId>) returns (removed: seq<InhibitorId>)
      ensures NoDuplicates(removed) && Elements(removed) == gone * inhibitors.Keys
    {
      var todo := gone * inhibitors.Keys;
      removed := [];
      while todo != {}
        invariant todo <= gone * inhibitors.Keys
        invariant NoDuplicates(removed) && Elements(removed) == gone * inhibitors.Keys - todo
      {
        var id :| id in todo;
        ElementsGrow(id, removed);
        assert id !in Elements(removed);
        removed := [id] + removed;
        todo := todo - {id};
      }
    }

    method ReportRemovals(removed: seq<InhibitorId>, env: Env, ghost s: State, ghost gone: set<InhibitorId>)
      requires NoDuplicates(pending) && (dialog != null ==> dialog.Valid())
      requires Now() == s.(inhibitors := s.inhibitors - gone) && Mirrors(s)
      requires NoDuplicates(removed) && Elements(removed) == gone * s.inhibitors.Keys
      modifies this, presence, presence.monitor, dialog
      ensures NoDuplicates(pending) && (dialog == null || (dialog == old(dialog) && dialog.Valid()))
      ensures Now() == ReportedAll(old(Now()), removed, env)
    {
      var k := 0;
      while k < |removed|
        invariant 0 <= k <= |removed|
        invariant NoDuplicates(pending) && (dialog == null || (dialog == old(dialog) && dialog.Valid()))
        invariant Now() == ReportedAll(old(Now()), removed[..k], env)
      {
        ReportedSoFar(s, removed, k, gone, env);
        assert removed[..k + 1][..k] == removed[..k];
        OnInhibitorRemoved(removed[k], env);
        k := k + 1;
      }
      assert removed[..|removed|] == removed;
    }

    /** The store has dropped the inhibitors before it reports them, one after the other. */
    method RemoveInhibitors(gone: set<InhibitorId>, env: Env)
      requires Valid()
      modifies this, presence, presence.monitor, dialog
      ensures Valid() && (dialog == null || dialog == old(dialog))
      ensures Now() == Session.RemoveInhibitors(old(Now()), gone, env)
    {
      ghost var s := Now();
      var removed := Matching(gone);
      inhibitors := inhibitors - gone;
      ReportRemovals(removed, env, s, gone);
      ReportsAddUp(s, removed, gone, env);
      RemovalMirrors(s, gone, env);
    }

    // ----- taking a logout back -----

    method CloseDialog()
      modifies this`dialog
      ensures dialog == null && Now() == old(Now()).(dialog := None)
    {
      dialog := null;
    }

    method Withdraw(env: Env)
      requires Valid()
      modifies this, presence, presence.monitor, dialog
      ensures Valid() && dialog == null
      ensures Now() == Withdrawn(old(Now()), env)
    {
      // The dialog goes first, or the removals below would make it accept.
      CloseDialog();
      var jits := set i | i in inhibitors && IsJit(inhibitors[i]);
      RemoveInhibitors(jits, env);
      BackToRunning(env);
    }

    method BackToRunning(env: Env)
      modifies this`log, this`phase, this`mode, this`ending
      ensures Now() == old(Now()).(log := old(log) + Notices(env.order, clients.Keys, TellCancel),
                                   phase := RUNNING, mode := Normal, ending := NoEnding)
    {
      Tell(env.order, TellCancel);
      phase, mode, ending := RUNNING, Normal, NoEnding;
    }

    method CancelEndSession(env: Env)
      requires Valid()
      modifies this, presence, presence.monitor, dialog
      ensures Valid() && (dialog == null || dialog == old(dialog))
      ensures Now() == Cancel(old(Now()), env)
    {
      if phase < QUERY_END_SESSION {
        return;
      }
      Withdraw(env);
      StartPhase(env);
    }

    method Decline(env: Env)
      requires Valid()
      modifies this, presence, presence.monitor, dialog
      ensures Valid() && dialog == null
      ensures Now() == Session.Decline(old(Now()), env)
    {
      if dialog == null {
        return;
      }
      var first := dialog.OnResponse();
      if first {
        var action := dialog.action;
        dialog := null;
        if EndsSession(action) {
          CancelEndSession(env);
        }
      }
    }

    // ----- answers -----

    method StopQueryTimer()
      modifies this`queryTimer
      ensures Now() == old(Now()).(queryTimer := 0)
    {
      if queryTimer > 0 {
        queryTimer := 0;
      }
    }

    method OpenDialog(action: Action)
      requires Valid() && dialog == null
      modifies this`dialog
      ensures Valid() && fresh(dialog)
      ensures Now() == old(Now()).(dialog := Some(Dialog(action, inhibitors.Keys)))
    {
      dialog := new InhibitDialog(inhibitors, action);
    }

    method QueryEndSessionComplete(env: Env)
      requires Valid()
      modifies this, presence, presence.monitor
      ensures Valid() && (dialog == null || dialog == old(dialog) || fresh(dialog))
      ensures Now() == QueryComplete(old(Now()), env)
    {
      StopQueryTimer();
      var inhibited := IsInhibited(FlagLogout);
      if !inhibited {
        EndPhase(env);
        return;
      }
      if dialog != null {
        return;
      }
      OpenDialog(ActionFor(ending));
    }

    method AddJitInhibitor(c: ClientId, env: Env)
      requires Valid() && Fair(env.random) && |inhibitors| < MAX_COOKIE
      modifies this`inhibitors, this`nextInhibitor, presence, presence.monitor, dialog
      ensures Valid() && |inhibitors| <= old(|inhibitors|) + 1
      ensures Now() == AddJit(old(Now()), c, env)
    {
      var bus := if c in clients then clients[c].bus else None;
      var cookie := GenerateUniqueCookie(env);
      AddInhibitor(Inhibitor(Some(c), {FlagLogout}, bus, cookie));
    }

    method Proceed(c: ClientId, last: bool, env: Env)
      requires Valid()
      modifies this, presence, presence.monitor
      ensures Valid() && (dialog == null || dialog == old(dialog) || fresh(dialog))
      ensures Now() == AfterAnswer(old(Now()), c, last, env)
    {
      if phase == QUERY_END_SESSION {
        if query == [] {
          QueryEndSessionComplete(env);
        }
      } else if phase == END_SESSION {
        if last {
          next := [c] + next;
          assert Now() == old(Now()).(next := [c] + old(next));
        }
        ProceedEnd(c, env);
      }
    }

    method ProceedEnd(c: ClientId, env: Env)
      requires Valid() && phase == END_SESSION
      modifies this, presence, presence.monitor
      ensures Valid() && dialog == old(dialog)
      ensures Now() == AfterAnswer(old(Now()), c, false, env)
    {
      var inhibited := IsInhibited(FlagLogout);
      if query == [] && !inhibited {
        NextRound(env);
      }
    }

    method NextRound(env: Env)
      requires Valid() && query == []
      modifies this, presence, presence.monitor
      ensures Valid() && dialog == old(dialog)
      ensures Now() == if old(next) != [] then SecondRound(old(Now()), env) else Session.EndPhase(old(Now()), env)
    {
      if next != [] {
        DoPhaseEndSessionPart2(env);
      } else {
        EndPhase(env);
      }
    }

    method TakeAnswer(c: ClientId, ok: bool, env: Env)
      requires Valid() && (!ok ==> Fair(env.random) && |inhibitors| < MAX_COOKIE)
      modifies this, presence, presence.monitor, dialog
      ensures Valid() && (dialog == null || dialog == old(dialog))
      ensures var t := old(Now()).(query := RemoveFirst(old(query), c));
              Now() == if !ok && t.mode != Force then AddJit(t, c, env) else Session.RemoveInhibitors(t, JitsOf(t, c), env)
    {
      query := RemoveFirst(query, c);
      if !ok && mode != Force {
        AddJitInhibitor(c, env);
      } else {
        var jits := set i | i in inhibitors && inhibitors[i].client == Some(c);
        RemoveInhibitors(jits, env);
      }
    }

    method HandleClientEndSessionResponse(c: ClientId, ok: bool, last: bool, cancel: bool, env: Env)
      requires Valid() && (!ok ==> Fair(env.random) && |inhibitors| < MAX_COOKIE)
      modifies this, presence, presence.monitor, dialog
      ensures Valid() && (dialog == null || dialog == old(dialog) || fresh(dialog))
      ensures Now() == Answer(old(Now()), c, ok, last, cancel, env)
    {
      if phase < QUERY_END_SESSION {
        return;
      }
      if cancel {
        CancelEndSession(env);
        return;
      }
      TakeAnswer(c, ok, env);
      Proceed(c, last, env);
    }

    /** Those who have not answered are taken to refuse. */
    method BlameOne(c: ClientId, env: Env)
      requires Valid() && Fair(env.random) && |inhibitors| < MAX_COOKIE
      modifies this`inhibitors, this`nextInhibitor, presence, presence.monitor, dialog
      ensures Valid() && Now() == if mode == Force then old(Now()) else AddJit(old(Now()), c, env)
      ensures |inhibitors| <= old(|inhibitors|) + 1
    {
      if mode != Force {
        AddJitInhibitor(c, env);
      }
    }

    method BlameSilentClients(env: Env)
      requires Valid() && Fair(env.random) && |inhibitors| + |query| <= MAX_COOKIE
      modifies this`inhibitors, this`nextInhibitor, presence, presence.monitor, dialog
      ensures Valid()
      ensures Now() == if mode == Force then old(Now()) else AddJits(old(Now()), query, env)
    {
      for i := 0 to |query|
        invariant Valid() && |inhibitors| <= old(|inhibitors|) + i
        invariant Now() == if mode == Force then old(Now()) else AddJits(old(Now()), query[..i], env)
      {
        NextJit(old(Now()), query, i, env);
        BlameOne(query[i], env);
      }
      assert query[..|query|] == query;
    }

    method ForgetQuery()
      modifies this`query
      ensures Now() == old(Now()).(query := [])
    {
      query := [];
    }

    method OnQueryTimeout(env: Env)
      requires Valid() && Fair(env.random) && |inhibitors| + |query| <= MAX_COOKIE
      modifies this, presence, presence.monitor, dialog
      ensures Valid() && (dialog == null || dialog == old(dialog) || fresh(dialog))
      ensures Now() == QueryTimeout(old(Now()), env)
    {
      if queryTimer == 0 {
        return;
      }
      StopQueryTimer();
      BlameSilentClients(env);
      ForgetQuery();
      QueryEndSessionComplete(env);
    }

    // ----- disconnection -----

    method DisconnectClient(c: ClientId, env: Env)
      requires Valid()
      modifies this, presence, presence.monitor, dialog
      ensures Valid() && (dialog == null || dialog == old(dialog) || fresh(dialog))
      ensures Now() == Disconnect(old(Now()), c, env)
    {
      var jits := set i | i in inhibitors && inhibitors[i].client == Some(c);
      RemoveInhibitors(jits, env);
      if phase == QUERY_END_SESSION {
        HandleClientEndSessionResponse(c, true, false, false, env);
      }
    }

    method DropClient(c: ClientId, env: Env)
      requires Valid()
      modifies this, presence, presence.monitor, dialog
      ensures Valid() && (dialog == null || dialog == old(dialog) || fresh(dialog))
      ensures Now() == Drop(old(Now()), c, env)
    {
      DisconnectClient(c, env);
      clients := clients - {c};
    }

    method ExitIfLastClientGone(env: Env)
      requires Valid()
      modifies this, presence, presence.monitor
      ensures Valid() && dialog == old(dialog)
      ensures Now() == ExitIfEmpty(old(Now()), env)
    {
      if phase >= QUERY_END_SESSION && |clients| == 0 {
        assert clients == map[];
        EndPhase(env);
      }
    }

    method OnClientDisconnected(c: ClientId, env: Env)
      requires Valid()
      modifies this, presence, presence.monitor, dialog
      ensures Valid() && (dialog == null || dialog == old(dialog) || fresh(dialog))
      ensures Now() == ClientGone(old(Now()), c, env)
    {
      if c !in clients || clients[c].bus.Some? || !clients[c].watched {
        return;
      }
      DropClient(c, env);
      ExitIfLastClientGone(env);
    }

    method DropIfMatching(c: ClientId, name: Option<string>, env: Env)
      requires Valid()
      modifies this, presence, presence.monitor, dialog
      ensures Valid() && (dialog == null || dialog == old(dialog) || fresh(dialog))
      ensures var s := old(Now());
              Now() == if c in s.clients && s.clients[c].bus.Some? && (name.None? || s.clients[c].bus == name)
                       then Drop(s, c, env) else s
    {
      if c in clients && clients[c].bus.Some? && (name.None? || clients[c].bus == name) {
        DropClient(c, env);
      }
    }

    method DisconnectAll(name: Option<string>, env: Env)
      requires Valid()
      modifies this, presence, presence.monitor, dialog
      ensures Valid() && (dialog == null || dialog == old(dialog) || fresh(dialog))
      ensures Now() == DropAll(old(Now()), env.order, name, env)
    {
      ghost var s := Now();
      WholeOrder(env.order);
      for i := 0 to |env.order|
        invariant Valid() && (dialog == null || dialog == old(dialog) || fresh(dialog))
        invariant Now() == DropAll(s, Walked(env.order, i), name, env)
      {
        NextWalked(env.order, i);
        DropIfMatching(env.order[i], name, env);
      }
    }

    method RemoveClientsForConnection(name: Option<string>, env: Env)
      requires Valid()
      modifies this, presence, presence.monitor, dialog
      ensures Valid() && (dialog == null || dialog == old(dialog) || fresh(dialog))
      ensures Now() == ExitIfEmpty(DropAll(old(Now()), env.order, name, env), env)
    {
      DisconnectAll(name, env);
      ExitIfLastClientGone(env);
    }

    method OnBusNameLost(name: string, env: Env)
      requires Valid()
      modifies this, presence, presence.monitor, dialog
      ensures Valid() && (dialog == null || dialog == old(dialog) || fresh(dialog))
      ensures Now() == BusNameLost(old(Now()), name, env)
    {
      if name == "" {
        return;
      }
      var gone := set i | i in inhibitors && inhibitors[i].bus == Some(name);
      RemoveInhibitors(gone, env);
      RemoveClientsForConnection(Some(name), env);
    }

    method OnBusDisconnected(env: Env)
      requires Valid()
      modifies this, presence, presence.monitor, dialog
      ensures Valid() && (dialog == null || dialog == old(dialog) || fresh(dialog))
      ensures Now() == BusLost(old(Now()), env)
    {
      RemoveClientsForConnection(None, env);
    }

    // ----- startup and registration -----

    method Start(env: Env)
      requires Valid()
      modifies this, presence, presence.monitor
      ensures Valid() && dialog == old(dialog)
      ensures Now() == Session.Start(old(Now()), env)
    {
      if phase == STARTUP {
        phase := INITIALIZATION;
        StartPhase(env);
      }
    }

    method OnPhaseTimeout(env: Env)
      requires Valid()
      modifies this, presence, presence.monitor
      ensures Valid() && dialog == old(dialog)
      ensures Now() == PhaseTimeout(old(Now()), env)
    {
      if phaseTimer != 0 {
        phaseTimer := 0;
        EndPhase(env);
      }
    }

    method ForgetApp(a: App)
      requires Valid() && a in pending
      modifies this`pending
      ensures Valid() && Now() == old(Now()).(pending := old(Now()).pending - {a})
      ensures pending == [] <==> old(Now()).pending - {a} == {}
    {
      RemoveFromList(pending, a);
      pending := RemoveFirst(pending, a);
      ElementsGrow(a, pending);
    }

    /** A pending application has registered or exited. */
    method AppRegistered(a: App, env: Env)
      requires Valid()
      modifies this, presence, presence.monitor
      ensures Valid() && dialog == old(dialog)
      ensures Now() == AppSignal(old(Now()), a, env)
    {
      ElementsGrow(a, pending);
      if a in pending {
        ForgetApp(a);
        if pending == [] {
          if phaseTimer > 0 {
            phaseTimer := 0;
          }
          EndPhase(env);
        }
      }
    }

    method FindAppForStartupId(id: string) returns (found: Option<App>)
      ensures found.Some? ==> HasStartupId(Now(), found.value, id)
      ensures found.None? ==> forall a :: !HasStartupId(Now(), a, id)
      ensures found.Some? ==> found.value in apps && apps[found.value].startupId == id
                              && (phase < APPLICATION ==> found.value in pending)
      ensures found.None? ==> if phase < APPLICATION then forall a | a in pending && a in apps :: apps[a].startupId != id
                              else id == "" || forall a | a in apps :: apps[a].startupId != id
    {
      if phase < APPLICATION {
        for k := 0 to |pending|
          invariant forall j | 0 <= j < k && pending[j] in apps :: apps[pending[j]].startupId != id
        {
          if pending[k] in apps && apps[pending[k]].startupId == id {
            return Some(pending[k]);
          }
        }
      } else if id != "" {
        var todo := apps.Keys;
        while todo != {}
          invariant todo <= apps.Keys
          invariant forall a | a in apps.Keys - todo :: apps[a].startupId != id
        {
          var a :| a in todo;
          if apps[a].startupId == id {
            return Some(a);
          }
          todo := todo - {a};
        }
      }
      return None;
    }

    method FindAppForAppId(id: string) returns (found: Option<App>)
      ensures found.Some? ==> found.value in apps && apps[found.value].appId == id
      ensures found.None? ==> forall a | a in apps :: apps[a].appId != id
    {
      var todo := apps.Keys;
      while todo != {}
        invariant todo <= apps.Keys
        invariant forall a | a in apps.Keys - todo :: apps[a].appId != id
      {
        var a :| a in todo;
        if apps[a].appId == id {
          return Some(a);
        }
        todo := todo - {a};
      }
      return None;
    }

    method HasClientWithStartupId(id: string) returns (found: bool)
      ensures found <==> Taken(Now(), id)
    {
      var todo := clients.Keys;
      while todo != {}
        invariant todo <= clients.Keys
        invariant forall c | c in clients.Keys - todo :: clients[c].startupId != id
      {
        var c :| c in todo;
        if clients[c].startupId == id {
          return true;
        }
        todo := todo - {c};
      }
      return false;
    }

    method Connect(c: Client) returns (id: ClientId)
      modifies this`clients, this`nextClient
      ensures id == old(nextClient) && Now() == AddClient(old(Now()), c)
    {
      id := nextClient;
      nextClient := nextClient + 1;
      clients := clients[id := c];
    }

    method SetClient(c: ClientId, client: Client)
      modifies this`clients
      ensures Now() == old(Now()).(clients := old(clients)[c := client])
    {
      clients := clients[c := client];
    }

    /** An XSMP client names its previous id; `id` is the reply, none when it is refused. */
    method OnXsmpRegisterRequest(c: ClientId, previous: string, env: Env)
      returns (id: Option<string>, ghost app: Option<App>)
      requires Valid() && c in clients && clients[c].bus.None?
      modifies this, presence, presence.monitor
      ensures Valid() && dialog == old(dialog)
      ensures Now() == RegisterXsmp(old(Now()), c, previous, app, env)
      ensures app.Some? ==> HasStartupId(old(Now()), app.value, previous)
      ensures app.None? ==> forall a :: !HasStartupId(old(Now()), a, previous)
      ensures id == XsmpReply(old(Now()), previous, app, env)
      ensures c in clients && (id.Some? ==> clients[c].startupId == id.value && clients[c].watched)
    {
      var found := FindAppForStartupId(previous);
      app := found;
      SessionRegistration.XsmpFiledAsTold(Now(), c, previous, found, env);
      id := RegisterXsmpAs(c, previous, found, env);
    }

    method RegisterXsmpAs(c: ClientId, previous: string, found: Option<App>, env: Env) returns (id: Option<string>)
      requires Valid() && c in clients && clients[c].bus.None?
      modifies this, presence, presence.monitor
      ensures Valid() && dialog == old(dialog)
      ensures Now() == RegisterXsmp(old(Now()), c, previous, found, env)
      ensures id == XsmpReply(old(Now()), previous, found, env)
    {
      id := None;
      if phase < QUERY_END_SESSION {
        if previous == "" {
          SetClient(c, clients[c].(startupId := env.generated, watched := true));
          id := Some(env.generated);
        } else {
          var taken := HasClientWithStartupId(previous);
          if !taken {
            id := ReturnClient(c, previous, found, env);
          }
        }
      }
    }

    method ReturnClient(c: ClientId, previous: string, found: Option<App>, env: Env) returns (id: Option<string>)
      requires Valid() && c in clients && clients[c].bus.None? && phase < QUERY_END_SESSION
      requires previous != "" && !Taken(Now(), previous)
      modifies this, presence, presence.monitor
      ensures Valid() && dialog == old(dialog)
      ensures Now() == RegisterXsmp(old(Now()), c, previous, found, env)
      ensures id == if found.None? then None else Some(previous)
    {
      if found.None? {
        SetClient(c, clients[c].(watched := true));
        return None;
      }
      AdoptClient(c, previous, found.value, env);
      id := Some(previous);
    }

    method AdoptClient(c: ClientId, id: string, a: App, env: Env)
      requires Valid() && c in clients
      modifies this, presence, presence.monitor
      ensures Valid() && dialog == old(dialog)
      ensures var s := old(Now());
              var t := AppSignal(s, a, env);
              var client := s.clients[c].(startupId := id, watched := true, appId := AppIdOr(s, Some(a), ""));
              Now() == t.(clients := t.clients[c := client])
    {
      var client := clients[c].(startupId := id, watched := true, appId := if a in apps then apps[a].appId else "");
      AppRegistered(a, env);
      SetClient(c, client);
    }

    static ghost predicate KnownByStartupId(s: State, startupId: string) {
      startupId != "" && exists a :: HasStartupId(s, a, startupId)
    }

    static predicate HasAppId(s: State, a: App, appId: string) {
      appId != "" && a in s.apps && s.apps[a].appId == appId
    }

    /** The application a D-Bus client belongs to: by startup id, or else by application id, or else none. */
    static ghost predicate BelongsTo(s: State, found: Option<App>, startupId: string, appId: string) {
      if KnownByStartupId(s, startupId) then found.Some? && HasStartupId(s, found.value, startupId)
      else if exists a :: HasAppId(s, a, appId) then found.Some? && HasAppId(s, found.value, appId)
      else found.None?
    }

    method FindApp(startupId: string, appId: string) returns (found: Option<App>)
      ensures BelongsTo(Now(), found, startupId, appId)
    {
      found := None;
      if startupId != "" {
        found := FindAppForStartupId(startupId);
      }
      if found.None? && appId != "" {
        found := FindAppForAppId(appId);
      }
    }

    method RegisterClient(startupId: string, appId: string, bus: string, env: Env)
      returns (r: Result<ClientId, Refusal>, ghost app: Option<App>)
      requires Valid()
      modifies this, presence, presence.monitor
      ensures Valid() && dialog == old(dialog)
      ensures Now() == RegisterDBus(old(Now()), startupId, appId, bus, app, env)
      ensures if r.Success? then BelongsTo(old(Now()), app, startupId, appId) else app.None?
      ensures r.Success? ==> r.value in clients && clients[r.value].bus == Some(bus)
                             && clients[r.value].startupId == if startupId != "" then startupId else env.generated
      ensures r == if old(phase) >= QUERY_END_SESSION then Failure(NotInRunning)
                   else if startupId != "" && Taken(old(Now()), startupId) then Failure(AlreadyRegistered)
                   else Success(old(nextClient))
    {
      app := None;
      if phase >= QUERY_END_SESSION {
        return Failure(NotInRunning), None;
      }
      if startupId != "" {
        var taken := HasClientWithStartupId(startupId);
        if taken {
          return Failure(AlreadyRegistered), None;
        }
      }
      var found := FindApp(startupId, appId);
      app := found;
      var c := RegisterAs(startupId, appId, bus, found, env);
      r := Success(c);
    }

    method RegisterAs(startupId: string, appId: string, bus: string, found: Option<App>, env: Env) returns (c: ClientId)
      requires Valid() && phase < QUERY_END_SESSION && (startupId != "" ==> !Taken(Now(), startupId))
      modifies this, presence, presence.monitor
      ensures Valid() && dialog == old(dialog) && c == old(nextClient)
      ensures Now() == RegisterDBus(old(Now()), startupId, appId, bus, found, env)
      ensures c in clients && clients[c].bus == Some(bus)
              && clients[c].startupId == if startupId != "" then startupId else env.generated
    {
      var id := if startupId == "" then env.generated else startupId;
      var itsAppId := if found.Some? && found.value in apps then apps[found.value].appId else appId;
      c := Connect(Client(Some(bus), id, itsAppId, false));
      if found.Some? {
        SessionFrames.AppSignalFrame(Now(), found.value, env);
        AppRegistered(found.value, env);
      }
    }

    // ----- calls from outside -----

    method Inhibit(appId: string, reason: string, flags: set<Flag>, bus: string, env: Env) returns (r: Result<nat, Refusal>)
      requires Valid() && Fair(env.random) && |inhibitors| < MAX_COOKIE
      modifies this`inhibitors, this`nextInhibitor, presence, presence.monitor, dialog
      ensures Valid() && Now() == Session.Inhibit(old(Now()), appId, reason, flags, bus, env)
      ensures r == if mode == Force then Failure(ForcedLogout)
                   else if appId == "" || reason == "" || flags == {} then Failure(MissingField)
                   else Success(FreshCookie(env.random, Cookies(old(inhibitors))))
    {
      if mode == Force {
        return Failure(ForcedLogout);
      }
      if appId == "" || reason == "" || flags == {} {
        return Failure(MissingField);
      }
      var cookie := GenerateUniqueCookie(env);
      AddInhibitor(Inhibitor(None, flags, Some(bus), cookie));
      r := Success(cookie);
    }

    method FindByCookie(cookie: nat) returns (found: Option<InhibitorId>)
      requires InhibitorsOk(inhibitors, nextInhibitor)
      ensures WithCookie(Now(), cookie) == if found.Some? then {found.value} else {}
    {
      var todo := inhibitors.Keys;
      while todo != {}
        invariant todo <= inhibitors.Keys
        invariant forall i | i in inhibitors.Keys - todo :: inhibitors[i].cookie != cookie
      {
        var i :| i in todo;
        if inhibitors[i].cookie == cookie {
          return Some(i);
        }
        todo := todo - {i};
      }
      return None;
    }

    method Uninhibit(cookie: nat, env: Env) returns (r: Result<bool, Refusal>)
      requires Valid() && InhibitorsOk(inhibitors, nextInhibitor)
      modifies this, presence, presence.monitor, dialog
      ensures Valid() && (dialog == null || dialog == old(dialog))
      ensures Now() == Session.Uninhibit(old(Now()), cookie, env)
      ensures r == if cookie in Cookies(old(inhibitors)) then Success(true) else Failure(InvalidCookie)
    {
      var found := FindByCookie(cookie);
      assert found.Some? <==> cookie in Cookies(inhibitors) by {
        assert forall i | i in inhibitors && inhibitors[i].cookie == cookie :: i in WithCookie(Now(), cookie);
        assert found.Some? ==> found.value in WithCookie(Now(), cookie);
      }
      if found.None? {
        return Failure(InvalidCookie);
      }
      RemoveInhibitors({found.value}, env);
      r := Success(true);
    }

    method Logout(requested: Mode, env: Env) returns (r: Result<bool, Refusal>)
      requires Valid()
      modifies this, presence, presence.monitor
      ensures Valid() && dialog == old(dialog)
      ensures Now() == RequestLogout(old(Now()), requested, env)
      ensures r == if old(phase) != RUNNING then Failure(NotInRunning)
                   else if env.lockedDown then Failure(LockedDown)
                   else Success(true)
      ensures r.Success? && !(requested == Normal && env.prompt) ==> ending == Ending.Logout && mode == requested
    {
      if phase != RUNNING {
        return Failure(NotInRunning);
      }
      if env.lockedDown {
        return Failure(LockedDown);
      }
      if requested == Normal && env.prompt {
        mode := Normal;
      } else {
        mode := requested;
        ending := Ending.Logout;
        EndPhaseFrame(Now(), env);
        EndPhase(env);
      }
      r := Success(true);
    }

    /** A reboot or shutdown for which the privileges have been obtained, or are to be asked for later. */
    method Halt(requested: Ending, env: Env)
      requires Valid()
      modifies this, presence, presence.monitor
      ensures Valid() && dialog == old(dialog)
      ensures Now() == RequestHalt(old(Now()), requested, env)
      ensures old(phase) == RUNNING && requested != NoEnding && requested != Ending.Logout ==>
                ending == requested && mode == old(mode)
    {
      if phase == RUNNING && requested != NoEnding && requested != Ending.Logout {
        ending := requested;
        EndPhaseFrame(Now(), env);
        EndPhase(env);
      }
    }

    method Sleep(a: Action, env: Env)
      requires Valid()
      modifies this`log, this`dialog
      ensures Valid() && (dialog == null || dialog == old(dialog) || fresh(dialog))
      ensures Now() == RequestSleep(old(Now()), a, env)
    {
      if EndsSession(a) || (a == ActSwitchUser && env.switchLocked) {
        return;
      }
      var inhibited := IsInhibited(FlagFor(a));
      if !inhibited {
        log := log + [Perform(a)];
      } else if dialog == null {
        OpenDialog(a);
      }
    }

    // ----- one event after the other -----

    method OnPresence(e: P.PresenceEvent)
      requires P.Valid(presence.State())
      modifies presence, presence.monitor
      ensures Now() == if e.Enable? then old(Now()) else old(Now()).(presence := P.Next(old(Now()).presence, e))
    {
      match e
      case Enable(_) =>
      case Timeout(t) => presence.SetIdleTimeout(t);
      case Screensaver(active) => presence.OnScreensaverChanged(active);
      case ScreensaverLeft => presence.OnScreensaverGone();
      case Status(value) => presence.SetStatus(value);
      case Alarm(alarm) => presence.OnAlarm(alarm);
    }

    method HandleSpeech(e: Event, env: Env)
      requires Valid() && InhibitorsOk(inhibitors, nextInhibitor) && Fair(env.random) && |inhibitors| < MAX_COOKIE
      requires e.EvAnswer? || e.EvInhibit? || e.EvUninhibit?
      modifies this, presence, presence.monitor, dialog
      ensures Valid() && Now() == ClientStep(old(Now()), e, env)
    {
      match e
      case EvAnswer(c, ok, last, cancel) => if c in clients { HandleClientEndSessionResponse(c, ok, last, cancel, env); }
      case EvInhibit(appId, reason, flags, bus) => var r := Inhibit(appId, reason, flags, bus, env);
      case EvUninhibit(cookie) => var r := Uninhibit(cookie, env);
      case _ =>
    }

    method HandleLeave(e: Event, env: Env)
      requires Valid() && (e.EvClientGone? || e.EvBusNameLost? || e.EvBusLost?)
      modifies this, presence, presence.monitor, dialog
      ensures Valid() && Now() == ClientStep(old(Now()), e, env)
    {
      match e
      case EvClientGone(c) => OnClientDisconnected(c, env);
      case EvBusNameLost(name) => OnBusNameLost(name, env);
      case EvBusLost => OnBusDisconnected(env);
      case _ =>
    }

    method HandleJoin(e: Event, env: Env)
      requires Valid() && (e.EvRegisterXsmp? || e.EvRegisterDBus?)
      modifies this, presence, presence.monitor
      ensures Valid() && Now() == ClientStep(old(Now()), e, env)
    {
      if e.EvRegisterXsmp? {
        TryRegisterXsmp(e.client, e.previous, e.found, env);
      } else {
        TryRegisterDBus(e.startupId, e.appId, e.bus, e.found, env);
      }
    }

    method TryRegisterXsmp(c: ClientId, previous: string, found: Option<App>, env: Env)
      requires Valid()
      modifies this, presence, presence.monitor
      ensures Valid() && Now() == RegisterXsmp(old(Now()), c, previous, found, env)
    {
      if c in clients && clients[c].bus.None? {
        var id := RegisterXsmpAs(c, previous, found, env);
      }
    }

    method TryRegisterDBus(startupId: string, appId: string, bus: string, found: Option<App>, env: Env)
      requires Valid()
      modifies this, presence, presence.monitor
      ensures Valid() && Now() == RegisterDBus(old(Now()), startupId, appId, bus, found, env)
    {
      if phase < QUERY_END_SESSION {
        var taken := HasClientWithStartupId(startupId);
        if startupId == "" || !taken {
          var c := RegisterAs(startupId, appId, bus, found, env);
        }
      }
    }

    method HandlePhaseEvent(e: Event, env: Env)
      requires Valid() && EndsPhases(e) && Fair(env.random) && |inhibitors| + |query| <= MAX_COOKIE
      modifies this, presence, presence.monitor, dialog
      ensures Valid() && Now() == OwnStep(old(Now()), e, env)
    {
      match e
      case EvStart => Start(env);
      case EvAppSignal(a) => AppRegistered(a, env);
      case EvPhaseTimeout => OnPhaseTimeout(env);
      case EvQueryTimeout => OnQueryTimeout(env);
      case EvLogout(requested) => var r := Logout(requested, env);
      case EvHalt(requested) => Halt(requested, env);
      case _ =>
    }

    method HandleDialogEvent(e: Event, env: Env)
      requires Valid() && (e.EvSleep? || e.EvAccept? || e.EvDecline?)
      modifies this, presence, presence.monitor, dialog
      ensures Valid() && Now() == OwnStep(old(Now()), e, env)
    {
      match e
      case EvSleep(a) => Sleep(a, env);
      case EvAccept => Accept(env);
      case EvDecline => Decline(env);
      case _ =>
    }

    method HandleFromClient(e: Event, env: Env)
      requires Valid() && InhibitorsOk(inhibitors, nextInhibitor) && Fair(env.random) && |inhibitors| < MAX_COOKIE
      requires FromClient(e)
      modifies this, presence, presence.monitor, dialog
      ensures Valid() && Now() == ClientStep(old(Now()), e, env)
    {
      if e.EvAnswer? || e.EvInhibit? || e.EvUninhibit? {
        HandleSpeech(e, env);
      } else if e.EvClientGone? || e.EvBusNameLost? || e.EvBusLost? {
        HandleLeave(e, env);
      } else if e.EvConnect? {
        var c := Connect(Client(None, "", "", false));
      } else {
        HandleJoin(e, env);
      }
    }

    method HandleOwn(e: Event, env: Env)
      requires Valid() && P.Valid(presence.State()) && Fair(env.random) && |inhibitors| + |query| <= MAX_COOKIE
      requires !FromClient(e)
      modifies this, presence, presence.monitor, dialog
      ensures Valid() && Now() == OwnStep(old(Now()), e, env)
    {
      if EndsPhases(e) {
        HandlePhaseEvent(e, env);
      } else if e.EvPresence? {
        OnPresence(e.event);
      } else {
        HandleDialogEvent(e, env);
      }
    }

    /** The object goes through the same states as the runs that the theorems speak of. */
    method Handle(e: Event, env: Env)
      requires Valid() && Inv(Now()) && Possible(Now(), e, env)
      modifies this, presence, presence.monitor, dialog
      ensures Valid() && Inv(Now()) && Now() == Step(old(Now()), e, env)
    {
      StepInv(Now(), e, env);
      if FromClient(e) {
        HandleFromClient(e, env);
      } else {
        HandleOwn(e, env);
      }
    }
  }
}
