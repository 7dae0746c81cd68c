/** From one session to the next: the clients of a run, saved and loaded again. */
module SessionRelogin {
  import opened Wrappers
  import opened Session
  import opened SessionInvariant
  import opened SessionRegistration
  import S = SessionSave

  /**
   Clients on the bus save nothing. An XSMP client without a startup id was not
   accepted; it cannot set properties yet (the XSMP specification has it register
   first), so that it has no restart command and nothing to save either.
   */
  function Comes(client: Client, outcome: S.Outcome): S.Outcome {
    if client.bus.Some? || client.startupId == "" then S.Nothing else outcome
  }

  /** The clients as the save walks over them, each with what comes of saving it. */
  function ToSave(order: seq<ClientId>, clients: map<ClientId, Client>, outcomes: map<ClientId, S.Outcome>): seq<S.Saving> {
    if order == [] then []
    else
      var c := order[|order| - 1];
      ToSave(order[..|order| - 1], clients, outcomes)
      + if c in clients && c in outcomes then [S.Saving(clients[c].startupId, Comes(clients[c], outcomes[c]))] else []
  }

  predicate Written(c: ClientId, startupId: string, clients: map<ClientId, Client>, outcomes: map<ClientId, S.Outcome>) {
    c in clients && c in outcomes && Comes(clients[c], outcomes[c]).Written? && clients[c].startupId == startupId
  }

  lemma {:induction false} SavedForClients(order: seq<ClientId>, clients: map<ClientId, Client>,
                                           outcomes: map<ClientId, S.Outcome>, startupId: string)
    ensures S.SavedFor(ToSave(order, clients, outcomes), startupId) <==>
              exists c :: c in order && Written(c, startupId, clients, outcomes)
  {
    if order != [] {
      var k := |order| - 1;
      SavedForClients(order[..k], clients, outcomes, startupId);
      assert order == order[..k] + [order[k]];
      var before, list := ToSave(order[..k], clients, outcomes), ToSave(order, clients, outcomes);
      if S.SavedFor(before, startupId) {
        var j :| 0 <= j < |before| && before[j].outcome.Written? && before[j].startupId == startupId;
        assert list[j] == before[j];
      }
      if Written(order[k], startupId, clients, outcomes) {
        assert list[|before|].startupId == startupId;
      }
    }
  }

  /** No two clients of a session that is in order write the same file. */
  lemma {:induction false} DistinctFiles(order: seq<ClientId>, clients: map<ClientId, Client>, nextClient: ClientId,
                                         outcomes: map<ClientId, S.Outcome>)
    requires NoDuplicates(order) && ClientsOk(clients, nextClient)
    ensures S.DistinctIds(ToSave(order, clients, outcomes))
  {
    if order != [] {
      var k := |order| - 1;
      DistinctFiles(order[..k], clients, nextClient, outcomes);
      var before, c := ToSave(order[..k], clients, outcomes), order[k];
      if c in clients && c in outcomes && Comes(clients[c], outcomes[c]).Written? {
        SavedForClients(order[..k], clients, outcomes, clients[c].startupId);
        assert !S.SavedFor(before, clients[c].startupId) by {
          forall d | d in order[..k]
            ensures !Written(d, clients[c].startupId, clients, outcomes)
          {
            assert d != c;
          }
        }
      }
    }
  }

  /** An XSMP client of this run that was told this id has something to save. */
  ghost predicate SavedAs(c: ClientId, startupId: string, s0: State, es: seq<(Event, Env)>,
                          outcomes: map<ClientId, S.Outcome>)
  {
    var clients, told := Run(s0, es).clients, IdsTold(s0, es);
    c in clients && clients[c].bus.None? && c in told && told[c] == startupId && c in outcomes && outcomes[c].Written?
  }

  lemma WrittenAsTold(c: ClientId, startupId: string, s0: State, es: seq<(Event, Env)>, outcomes: map<ClientId, S.Outcome>)
    requires Filed(IdsTold(s0, es), Run(s0, es))
    ensures Written(c, startupId, Run(s0, es).clients, outcomes) <==> SavedAs(c, startupId, s0, es, outcomes)
  {
  }

  /**
   On every run: if all clients can be saved and the old files removed, the next
   login starts an application with a given startup id exactly if an XSMP client
   was told that id when it was accepted, and saved; and never two of them.
   */
  lemma NextLogin(apps: map<App, AppInfo>, idleCounter: bool, es: seq<(Event, Env)>,
                  order: seq<ClientId>, outcomes: map<ClientId, S.Outcome>,
                  saved: S.Directory, disk: S.Disk, listing: seq<string>, startupId: string)
    requires PossibleRun(Initial(apps, idleCounter), es)
    requires var clients := Run(Initial(apps, idleCounter), es).clients;
             && Walks(order, clients)
             && S.NobodyFails(ToSave(order, clients, outcomes))
             && (forall n | n in S.Save(saved, ToSave(order, clients, outcomes), disk) :: n in listing)
    requires saved.Keys !! disk.stuck
    ensures var s0 := Initial(apps, idleCounter);
            var started := S.Load(S.Save(saved, ToSave(order, Run(s0, es).clients, outcomes), disk), listing);
            && (S.StartedFor(started, startupId) <==> exists c :: SavedAs(c, startupId, s0, es, outcomes))
            && (forall i, j | 0 <= i < j < |started| :: started[i].startupId != started[j].startupId)
  {
    RunInv(apps, idleCounter, es);
    FiledOverRuns(apps, idleCounter, es);
    var s := Run(Initial(apps, idleCounter), es);
    DistinctFiles(order, s.clients, s.nextClient, outcomes);
    S.SavedThenLoaded(saved, ToSave(order, s.clients, outcomes), disk, listing);
    SavedForClients(order, s.clients, outcomes, startupId);
    forall c: ClientId
      ensures Written(c, startupId, s.clients, outcomes) <==> SavedAs(c, startupId, Initial(apps, idleCounter), es, outcomes)
    {
      WrittenAsTold(c, startupId, Initial(apps, idleCounter), es, outcomes);
    }
  }
}
