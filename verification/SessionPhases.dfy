/** The order in which a session lives through its phases, on every run. */
module SessionPhases {
  import opened Wrappers
  import opened Session
  import opened SessionInvariant
  import opened SessionFrames

  /** Startup goes through its phases once and in order; later on only a logout can be taken back. */
  predicate Orderly(trail: seq<Phase>) {
    && (forall i | 0 <= i < |trail| :: if i < RUNNING then trail[i] == i + 1 else trail[i] >= RUNNING)
    && (forall i | 0 < i < |trail| :: Edge(trail[i - 1], trail[i]))
  }

  lemma {:induction false} PathIsOrderly(trail: seq<Phase>)
    requires IsPath(trail)
    ensures Orderly(trail)
  {
    if trail != [] {
      var k := |trail| - 1;
      PathIsOrderly(trail[..k]);
      assert forall i | 0 <= i < k :: trail[..k][i] == trail[i];
      if k > 0 {
        assert trail[..k][k - 1] == trail[k - 1];
        assert MayEnter(trail[..k], trail[k]);
      }
    }
  }

  /**
   On every run, the phases entered are in order; the session rests in none of
   them without reason; and it quits only once it is known how, at the very end.
   */
  lemma PhasesInOrder(apps: map<App, AppInfo>, idleCounter: bool, es: seq<(Event, Env)>)
    requires PossibleRun(Initial(apps, idleCounter), es)
    ensures var s := Run(Initial(apps, idleCounter), es);
            && Orderly(s.trail)
            && s.phase == (if s.trail == [] then STARTUP else s.trail[|s.trail| - 1])
            && s.phase != APPLICATION
            && (forall m | m in s.log && m.Quit? :: m.ending != NoEnding)
            && (s.phase >= QUERY_END_SESSION ==> s.ending != NoEnding)
            && (s.phase == EXIT ==> Quit(s.ending) in s.log)
  {
    RunInv(apps, idleCounter, es);
    PathIsOrderly(Run(Initial(apps, idleCounter), es).trail);
  }

  /** The idle watch, from the first moment of the running session on. */
  lemma IdleChain(apps: map<App, AppInfo>, idleCounter: bool, es: seq<(Event, Env)>)
    requires PossibleRun(Initial(apps, idleCounter), es)
    requires Run(Initial(apps, idleCounter), es).phase >= RUNNING
    ensures var s := Run(Initial(apps, idleCounter), es);
            var p := s.presence;
            p.monitor.Some? ==>
              && (p.watch > 0 <==> !Inhibited(s.inhibitors, FlagIdle) && !p.screensaver && p.timeout > 0)
              && p.monitor.value.watches.Keys == (if p.watch > 0 then {p.watch} else {})
              && (p.watch > 0 ==> p.monitor.value.watches[p.watch].interval == p.timeout)
  {
    RunInv(apps, idleCounter, es);
  }

  /** All inhibitors of a run hold different cookies, in the range of the random draw. */
  lemma CookiesDistinct(apps: map<App, AppInfo>, idleCounter: bool, es: seq<(Event, Env)>)
    requires PossibleRun(Initial(apps, idleCounter), es)
    ensures var inhibitors := Run(Initial(apps, idleCounter), es).inhibitors;
            && (forall i | i in inhibitors :: 1 <= inhibitors[i].cookie <= MAX_COOKIE)
            && (forall i, j | i in inhibitors && j in inhibitors && inhibitors[i].cookie == inhibitors[j].cookie :: i == j)
  {
    RunInv(apps, idleCounter, es);
  }

  /** No two clients of a run share a startup id, and a client without one is an XSMP client that was not accepted. */
  lemma StartupIdsDistinct(apps: map<App, AppInfo>, idleCounter: bool, es: seq<(Event, Env)>)
    requires PossibleRun(Initial(apps, idleCounter), es)
    ensures var clients := Run(Initial(apps, idleCounter), es).clients;
            && (forall c | c in clients && clients[c].bus.Some? :: clients[c].startupId != "")
            && (forall c, d | c in clients && d in clients && clients[c].startupId != "" ::
                  clients[c].startupId == clients[d].startupId ==> c == d)
  {
    RunInv(apps, idleCounter, es);
  }

  /** Force and just-in-time inhibitors belong to a logout: a session that is not ending knows neither. */
  lemma NothingLeftOver(apps: map<App, AppInfo>, idleCounter: bool, es: seq<(Event, Env)>)
    requires PossibleRun(Initial(apps, idleCounter), es)
    ensures var s := Run(Initial(apps, idleCounter), es);
            s.phase < QUERY_END_SESSION ==>
              && s.mode == Normal && s.queryTimer == 0 && s.query == [] && s.next == []
              && (forall i | i in s.inhibitors :: s.inhibitors[i].client.None?)
  {
    RunInv(apps, idleCounter, es);
  }
}
