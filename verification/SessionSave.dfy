/**
 Saving the session: all files are written next to the saved session, which is
 then replaced as a whole; and a saved session loaded again starts exactly the
 applications that were saved.
 */
module SessionSave {
  import opened Wrappers

  // ----- directories -----

  /** What a desktop file in the saved session says; `loads` is false for a damaged one. */
  datatype File = File(loads: bool, startupId: string, discard: Option<string>)

  type Directory = map<string, File>

  /** A client to be saved, and what comes of it: nothing to save, a file, or an error. */
  datatype Outcome = Nothing | Written(discard: Option<string>) | Failed

  datatype Saving = Saving(startupId: string, outcome: Outcome)

  const SUFFIX := ".desktop"

  function FileName(startupId: string): string {
    startupId + SUFFIX
  }

  /** What the disk allows: which files cannot be unlinked, and which discard commands can be parsed. */
  datatype Disk = Disk(stuck: set<string>, parses: set<string>)

  // ----- saving the clients -----

  datatype Draft = Draft(dir: Directory, discards: set<string>, failed: bool)

  function SaveOne(d: Draft, s: Saving): Draft {
    match s.outcome
    case Nothing => d
    case Failed => d.(failed := true)
    case Written(discard) =>
      d.(dir := d.dir[FileName(s.startupId) := File(true, s.startupId, discard)],
         discards := d.discards + if discard.Some? then {discard.value} else {})
  }

  /** Clients are saved one after the other, up to the first error. */
  function SaveAll(list: seq<Saving>): Draft {
    if list == [] then Draft(map[], {}, false)
    else
      var d := SaveAll(list[..|list| - 1]);
      if d.failed then d else SaveOne(d, list[|list| - 1])
  }

  // ----- clearing the old session -----

  /** The discard command of this old file is to be run: nothing in the new session refers to it. */
  predicate Outdated(f: File, discards: set<string>, disk: Disk) {
    f.loads && f.discard.Some? && f.discard.value !in discards && f.discard.value in disk.parses
  }

  /** The commands that clearing the old session runs, in the order in which the directory is read. */
  function Commands(saved: Directory, order: seq<string>, discards: set<string>, disk: Disk): seq<string> {
    if order == [] then []
    else
      var name := order[|order| - 1];
      Commands(saved, order[..|order| - 1], discards, disk)
      + if name in saved && Outdated(saved[name], discards, disk) then [saved[name].discard.value] else []
  }

  /** What is left when every file that can be unlinked has been. */
  function Left(saved: Directory, disk: Disk): Directory {
    map n | n in saved && n in disk.stuck :: saved[n]
  }

  /** The saved session afterwards: it can only be replaced once the old directory is empty. */
  function Save(saved: Directory, list: seq<Saving>, disk: Disk): Directory {
    var d := SaveAll(list);
    if d.failed then saved
    else if Left(saved, disk) == map[] then d.dir
    else Left(saved, disk)
  }

  // ----- what saving comes to -----

  predicate NobodyFails(list: seq<Saving>) {
    forall k | 0 <= k < |list| :: !list[k].outcome.Failed?
  }

  /** No two clients that write a file share a startup id. */
  predicate DistinctIds(list: seq<Saving>) {
    forall i, j | 0 <= i < j < |list| && list[i].outcome.Written? && list[j].outcome.Written? ::
      list[i].startupId != list[j].startupId
  }

  /** The directory holds exactly one file for each client that had something to save. */
  predicate HoldsExactly(dir: Directory, list: seq<Saving>) {
    && (forall k | 0 <= k < |list| && list[k].outcome.Written? ::
          FileName(list[k].startupId) in dir
          && dir[FileName(list[k].startupId)] == File(true, list[k].startupId, list[k].outcome.discard))
    && (forall n | n in dir :: exists k :: 0 <= k < |list| && list[k].outcome.Written? && FileName(list[k].startupId) == n)
  }

  lemma FileNameInjective(a: string, b: string)
    ensures FileName(a) == FileName(b) <==> a == b
  {
    assert FileName(a)[..|a|] == a && FileName(b)[..|b|] == b;
  }

  lemma {:induction false} FailedExactlyWhen(list: seq<Saving>)
    ensures SaveAll(list).failed <==> !NobodyFails(list)
  {
    if list != [] {
      var k := |list| - 1;
      FailedExactlyWhen(list[..k]);
      assert list == list[..k] + [list[k]];
      assert forall j | 0 <= j < k :: list[..k][j] == list[j];
    }
  }

  /** One more client is saved under a name of its own. */
  lemma OneMoreSaved(dir: Directory, before: seq<Saving>, s: Saving)
    requires HoldsExactly(dir, before) && s.outcome.Written?
    requires forall j | 0 <= j < |before| && before[j].outcome.Written? :: before[j].startupId != s.startupId
    ensures HoldsExactly(dir[FileName(s.startupId) := File(true, s.startupId, s.outcome.discard)], before + [s])
  {
    var list := before + [s];
    var after := dir[FileName(s.startupId) := File(true, s.startupId, s.outcome.discard)];
    forall j | 0 <= j < |before| && before[j].outcome.Written?
      ensures FileName(before[j].startupId) != FileName(s.startupId)
    {
      FileNameInjective(before[j].startupId, s.startupId);
    }
    forall n | n in after
      ensures exists k :: 0 <= k < |list| && list[k].outcome.Written? && FileName(list[k].startupId) == n
    {
      if n == FileName(s.startupId) {
        assert list[|before|] == s;
      } else {
        var k :| 0 <= k < |before| && before[k].outcome.Written? && FileName(before[k].startupId) == n;
        assert list[k] == before[k];
      }
    }
  }

  lemma OneMoreSkipped(dir: Directory, before: seq<Saving>, s: Saving)
    requires HoldsExactly(dir, before) && !s.outcome.Written?
    ensures HoldsExactly(dir, before + [s])
  {
    var list := before + [s];
    forall n | n in dir
      ensures exists k :: 0 <= k < |list| && list[k].outcome.Written? && FileName(list[k].startupId) == n
    {
      var k :| 0 <= k < |before| && before[k].outcome.Written? && FileName(before[k].startupId) == n;
      assert list[k] == before[k];
    }
  }

  lemma {:induction false} AllAreSaved(list: seq<Saving>)
    requires NobodyFails(list) && DistinctIds(list)
    ensures HoldsExactly(SaveAll(list).dir, list)
  {
    if list != [] {
      var k := |list| - 1;
      assert list == list[..k] + [list[k]];
      AllAreSaved(list[..k]);
      FailedExactlyWhen(list[..k]);
      if list[k].outcome.Written? {
        OneMoreSaved(SaveAll(list[..k]).dir, list[..k], list[k]);
      } else {
        OneMoreSkipped(SaveAll(list[..k]).dir, list[..k], list[k]);
      }
    }
  }

  predicate Mentions(list: seq<Saving>, command: string) {
    exists k :: 0 <= k < |list| && list[k].outcome == Written(Some(command))
  }

  lemma {:induction false} DiscardsAreMentioned(list: seq<Saving>, command: string)
    requires NobodyFails(list)
    ensures command in SaveAll(list).discards <==> Mentions(list, command)
  {
    if list != [] {
      var k := |list| - 1;
      var before := list[..k];
      assert forall j | 0 <= j < k :: before[j] == list[j];
      DiscardsAreMentioned(before, command);
      FailedExactlyWhen(before);
      if j :| 0 <= j < k && before[j].outcome == Written(Some(command)) {
        assert list[j].outcome == Written(Some(command));
      }
    }
  }

  /**
   Saving is all or nothing: if a client fails the old session stands; if all
   are saved, and the old files can be removed, the new session holds exactly
   one file for each client that had something to save.
   */
  lemma SavedAsAWhole(saved: Directory, list: seq<Saving>, disk: Disk)
    requires DistinctIds(list)
    ensures var after := Save(saved, list, disk);
            && (!NobodyFails(list) ==> after == saved)
            && (NobodyFails(list) && saved.Keys !! disk.stuck ==> HoldsExactly(after, list))
            && (NobodyFails(list) && !(saved.Keys !! disk.stuck) ==> after != map[] && after.Keys == saved.Keys * disk.stuck)
  {
    FailedExactlyWhen(list);
    if NobodyFails(list) {
      AllAreSaved(list);
      var left := Left(saved, disk);
      if saved.Keys !! disk.stuck {
        assert left == map[];
      } else {
        var n :| n in saved && n in disk.stuck;
        assert n in left;
      }
    }
  }

  lemma {:induction false} CommandsAreOutdated(saved: Directory, order: seq<string>, discards: set<string>,
                                               disk: Disk, command: string)
    ensures command in Commands(saved, order, discards, disk) <==>
              exists n :: n in order && n in saved && Outdated(saved[n], discards, disk) && saved[n].discard.value == command
  {
    if order != [] {
      var k := |order| - 1;
      CommandsAreOutdated(saved, order[..k], discards, disk, command);
      assert order == order[..k] + [order[k]];
    }
  }

  /** The discard commands run are exactly those of old files that no new file mentions. */
  lemma DiscardsWhatIsForgotten(saved: Directory, order: seq<string>, list: seq<Saving>, disk: Disk, command: string)
    requires NobodyFails(list) && forall n | n in saved :: n in order
    ensures command in Commands(saved, order, SaveAll(list).discards, disk) <==>
              && command in disk.parses && !Mentions(list, command)
              && exists n :: n in saved && saved[n].loads && saved[n].discard == Some(command)
  {
    DiscardsAreMentioned(list, command);
    CommandsAreOutdated(saved, order, SaveAll(list).discards, disk, command);
  }

  // ----- a save that fails -----

  /** The clients that are saved: those before the first that fails. */
  function UpToFailure(list: seq<Saving>): seq<Saving> {
    if list == [] then []
    else
      var k := |list| - 1;
      var before := UpToFailure(list[..k]);
      if |before| < k || list[k].outcome.Failed? then before else list
  }

  lemma {:induction false} SavedUpToFailure(list: seq<Saving>)
    ensures UpToFailure(list) <= list && NobodyFails(UpToFailure(list))
    ensures NobodyFails(list) <==> UpToFailure(list) == list
    ensures SaveAll(list).dir == SaveAll(UpToFailure(list)).dir
  {
    if list != [] {
      var k := |list| - 1;
      SavedUpToFailure(list[..k]);
      FailedExactlyWhen(list[..k]);
      assert list == list[..k] + [list[k]];
      assert forall j | 0 <= j < k :: list[..k][j] == list[j];
    }
  }

  /**
   When a client fails, the draft is cleared with no record of what is still in
   use: the discard commands run are those of all clients saved before it.
   */
  lemma FailureDiscards(list: seq<Saving>, order: seq<string>, disk: Disk, command: string)
    requires DistinctIds(list) && forall n :: n in SaveAll(list).dir <==> n in order
    ensures command in Commands(SaveAll(list).dir, order, {}, disk) <==>
              command in disk.parses && Mentions(UpToFailure(list), command)
  {
    var saved := UpToFailure(list);
    SavedUpToFailure(list);
    AllAreSaved(saved);
    CommandsAreOutdated(SaveAll(list).dir, order, {}, disk, command);
    var dir := SaveAll(list).dir;
    if Mentions(saved, command) {
      var k :| 0 <= k < |saved| && saved[k].outcome == Written(Some(command));
      assert FileName(saved[k].startupId) in dir;
    }
  }

  /** This session's files need what the command would discard. */
  predicate Needs(saved: Directory, command: string) {
    exists n :: n in saved && saved[n].loads && saved[n].discard == Some(command)
  }

  /** No client's discard command is one that an old file has as well. */
  predicate SharesNone(saved: Directory, list: seq<Saving>, disk: Disk) {
    forall k | 0 <= k < |list| && list[k].outcome.Written? && list[k].outcome.discard.Some? ::
      list[k].outcome.discard.value in disk.parses ==> !Needs(saved, list[k].outcome.discard.value)
  }

  /**
   A failed save is to leave the old session usable. Its files stand, but what
   they refer to does exactly when no client saved before the failure has a
   discard command that an old file has as well.
   */
  lemma FailureSparesExactlyWhen(saved: Directory, list: seq<Saving>, order: seq<string>, disk: Disk)
    requires DistinctIds(list) && forall n :: n in SaveAll(list).dir <==> n in order
    ensures (forall command | command in Commands(SaveAll(list).dir, order, {}, disk) :: !Needs(saved, command)) <==>
              SharesNone(saved, UpToFailure(list), disk)
  {
    var before, ran := UpToFailure(list), Commands(SaveAll(list).dir, order, {}, disk);
    forall command: string
      ensures command in ran <==> command in disk.parses && Mentions(before, command)
    {
      FailureDiscards(list, order, disk, command);
    }
    forall k | 0 <= k < |before| && before[k].outcome.Written? && before[k].outcome.discard.Some?
      ensures Mentions(before, before[k].outcome.discard.value)
    {
      assert before[k].outcome == Written(Some(before[k].outcome.discard.value));
    }
  }

  /** One client is saved with the state it had before, the next one fails, and that state is discarded. */
  lemma StateLost()
    ensures var saved: Directory := map["a.desktop" := File(true, "a", Some("rm state"))];
            var list := [Saving("a", Written(Some("rm state"))), Saving("b", Failed)];
            var disk := Disk({}, {"rm state"});
            && Save(saved, list, disk) == saved && SaveAll(list).failed && Needs(saved, "rm state")
            && SaveAll(list).dir.Keys == {"a.desktop"}
            && Commands(SaveAll(list).dir, ["a.desktop"], {}, disk) == ["rm state"]
  {
    var saved: Directory := map["a.desktop" := File(true, "a", Some("rm state"))];
    var list := [Saving("a", Written(Some("rm state"))), Saving("b", Failed)];
    var disk := Disk({}, {"rm state"});
    assert list[..1][..0] == [] && list[..1][0] == list[0];
    assert FileName("a") == "a.desktop";
    assert SaveAll(list[..1]) == SaveOne(Draft(map[], {}, false), list[0]);
    assert SaveAll(list).dir == SaveAll(list[..1]).dir;
    assert ["a.desktop"][..0] == [];
    assert Needs(saved, "rm state") by {
      assert "a.desktop" in saved;
    }
  }

  // ----- logging in again -----

  datatype App = App(appId: string, startupId: string)

  predicate HasSuffix(name: string) {
    |name| >= |SUFFIX| && name[|name| - |SUFFIX|..] == SUFFIX
  }

  predicate HasApp(apps: seq<App>, appId: string) {
    exists k :: 0 <= k < |apps| && apps[k].appId == appId
  }

  /** Each desktop file becomes an application named after it, unless there is one of that name. */
  function Load(dir: Directory, order: seq<string>): seq<App> {
    if order == [] then []
    else
      var apps := Load(dir, order[..|order| - 1]);
      var name := order[|order| - 1];
      if HasSuffix(name) && name in dir && dir[name].loads && !HasApp(apps, name)
      then apps + [App(name, dir[name].startupId)]
      else apps
  }

  predicate FromFiles(apps: seq<App>, dir: Directory) {
    forall k | 0 <= k < |apps| :: apps[k].appId in dir && apps[k].appId == FileName(apps[k].startupId)
  }

  lemma Found(apps: seq<App>, app: App)
    ensures HasApp(apps + [app], app.appId)
    ensures forall n: string | HasApp(apps, n) :: HasApp(apps + [app], n)
  {
    var more := apps + [app];
    assert more[|apps|] == app;
    forall n: string | HasApp(apps, n)
      ensures HasApp(more, n)
    {
      var i :| 0 <= i < |apps| && apps[i].appId == n;
      assert more[i].appId == n;
    }
  }

  predicate NamedAfterIds(dir: Directory) {
    forall n | n in dir :: dir[n].loads && n == FileName(dir[n].startupId)
  }

  lemma {:induction false} LoadedOnce(dir: Directory, order: seq<string>)
    requires NamedAfterIds(dir)
    ensures var apps := Load(dir, order);
            && FromFiles(apps, dir)
            && (forall n | n in dir && n in order :: HasApp(apps, n))
            && (forall i, j | 0 <= i < j < |apps| :: apps[i].appId != apps[j].appId)
  {
    if order != [] {
      var k := |order| - 1;
      LoadedOnce(dir, order[..k]);
      assert order == order[..k] + [order[k]];
      var before := Load(dir, order[..k]);
      if order[k] in dir && !HasApp(before, order[k]) {
        var app := App(order[k], dir[order[k]].startupId);
        assert HasSuffix(order[k]);
        assert Load(dir, order) == before + [app];
        assert app.appId in dir && app.appId == FileName(app.startupId);
        assert FromFiles(before + [app], dir);
        Found(before, app);
        assert forall i | 0 <= i < |before| :: before[i].appId != app.appId;
      }
    }
  }

  predicate StartedFor(apps: seq<App>, startupId: string) {
    exists i :: 0 <= i < |apps| && apps[i].startupId == startupId
  }

  predicate SavedFor(list: seq<Saving>, startupId: string) {
    exists k :: 0 <= k < |list| && list[k].outcome.Written? && list[k].startupId == startupId
  }

  /** What is read back from a directory that holds exactly the saved clients. */
  lemma LoadedExactly(dir: Directory, list: seq<Saving>, order: seq<string>, startupId: string)
    requires HoldsExactly(dir, list) && forall n | n in dir :: n in order
    ensures StartedFor(Load(dir, order), startupId) <==> SavedFor(list, startupId)
  {
    NamedAfterTheirIds(dir, list);
    LoadedOnce(dir, order);
    var apps := Load(dir, order);
    if SavedFor(list, startupId) {
      assert FileName(startupId) in dir;
      assert HasApp(apps, FileName(startupId));
      var i :| 0 <= i < |apps| && apps[i].appId == FileName(startupId);
      FileNameInjective(apps[i].startupId, startupId);
    }
    if StartedFor(apps, startupId) {
      var i :| 0 <= i < |apps| && apps[i].startupId == startupId;
      var k :| 0 <= k < |list| && list[k].outcome.Written? && FileName(list[k].startupId) == apps[i].appId;
      FileNameInjective(list[k].startupId, startupId);
    }
  }

  /**
   A saved session read back at the next login starts an application with a
   client's old startup id exactly if that client was saved, and only one.
   */
  lemma SavedThenLoaded(saved: Directory, list: seq<Saving>, disk: Disk, order: seq<string>)
    requires DistinctIds(list) && NobodyFails(list) && saved.Keys !! disk.stuck
    requires forall n | n in Save(saved, list, disk) :: n in order
    ensures var apps := Load(Save(saved, list, disk), order);
            && (forall id: string :: StartedFor(apps, id) <==> SavedFor(list, id))
            && (forall i, j | 0 <= i < j < |apps| :: apps[i].startupId != apps[j].startupId)
  {
    SavedAsAWhole(saved, list, disk);
    var dir := Save(saved, list, disk);
    NamedAfterTheirIds(dir, list);
    LoadedOnce(dir, order);
    forall id: string
      ensures StartedFor(Load(dir, order), id) <==> SavedFor(list, id)
    {
      LoadedExactly(dir, list, order, id);
    }
    var apps := Load(dir, order);
    assert FromFiles(apps, dir);
  }

  lemma NamedAfterTheirIds(dir: Directory, list: seq<Saving>)
    requires HoldsExactly(dir, list)
    ensures NamedAfterIds(dir)
  {
    forall n | n in dir
      ensures dir[n].loads && n == FileName(dir[n].startupId)
    {
      var k :| 0 <= k < |list| && list[k].outcome.Written? && FileName(list[k].startupId) == n;
    }
  }

  // ----- the two directories on disk -----

  /** The old directory when these files have been dealt with. */
  function Cleared(saved: Directory, done: seq<string>, disk: Disk): Directory {
    map n | n in saved && (n !in done || n in disk.stuck) :: saved[n]
  }

  lemma ClearedNext(saved: Directory, order: seq<string>, i: nat, disk: Disk)
    requires NoDuplicates(order) && i < |order| && order[i] in saved
    ensures var before := Cleared(saved, order[..i], disk);
            && order[i] in before && before[order[i]] == saved[order[i]]
            && Cleared(saved, order[..i + 1], disk) == if order[i] in disk.stuck then before else before - {order[i]}
  {
    assert order[..i + 1] == order[..i] + [order[i]];
  }

  lemma NothingCleared(saved: Directory, order: seq<string>, disk: Disk)
    ensures Cleared(saved, order[..0], disk) == saved
  {
  }

  lemma AllCleared(saved: Directory, order: seq<string>, disk: Disk)
    requires forall n | n in saved :: n in order
    ensures Cleared(saved, order, disk) == Left(saved, disk)
  {
  }

  class Store {
    var saved: Option<Directory>
    var draft: Option<Directory>
    var spawned: seq<string>

    constructor (saved: Directory)
      ensures this.saved == Some(saved) && draft == None && spawned == []
    {
      this.saved := Some(saved);
      draft := None;
      spawned := [];
    }

    method SaveOneClient(s: Saving, discards: set<string>) returns (more: set<string>, failed: bool)
      requires draft.Some?
      modifies this`draft
      ensures draft.Some?
      ensures Draft(draft.value, more, failed) == SaveOne(Draft(old(draft).value, discards, false), s)
    {
      more := discards;
      failed := s.outcome.Failed?;
      if s.outcome.Written? {
        draft := Some(draft.value[FileName(s.startupId) := File(true, s.startupId, s.outcome.discard)]);
        if s.outcome.discard.Some? {
          more := more + {s.outcome.discard.value};
        }
      }
    }

    method SaveAllClients(list: seq<Saving>) returns (discards: set<string>, failed: bool)
      requires draft == Some(map[])
      modifies this`draft
      ensures draft.Some? && Draft(draft.value, discards, failed) == SaveAll(list)
    {
      discards, failed := {}, false;
      for i := 0 to |list|
        invariant draft.Some? && Draft(draft.value, discards, failed) == SaveAll(list[..i])
      {
        assert list[..i + 1][..i] == list[..i];
        if !failed {
          discards, failed := SaveOneClient(list[i], discards);
        }
      }
      assert list[..|list|] == list;
    }

    /** One old file: its discard command is run if nothing refers to it any more, and it is unlinked. */
    method ClearOneClient(dir: Directory, name: string, discards: set<string>, disk: Disk) returns (left: Directory)
      requires name in dir
      modifies this`spawned
      ensures left == if name in disk.stuck then dir else dir - {name}
      ensures spawned == old(spawned) + if Outdated(dir[name], discards, disk) then [dir[name].discard.value] else []
    {
      var f := dir[name];
      left := dir;
      if f.loads && f.discard.Some? && f.discard.value !in discards && f.discard.value in disk.parses {
        spawned := spawned + [f.discard.value];
      }
      if name !in disk.stuck {
        left := left - {name};
      }
    }

    /** Walks over a directory, each file once. */
    method ClearSavedSession(dir: Directory, order: seq<string>, discards: set<string>, disk: Disk)
      returns (left: Directory)
      requires NoDuplicates(order) && forall n :: n in dir <==> n in order
      modifies this`spawned
      ensures left == Left(dir, disk)
      ensures spawned == old(spawned) + Commands(dir, order, discards, disk)
    {
      left := dir;
      NothingCleared(dir, order, disk);
      for i := 0 to |order|
        invariant left == Cleared(dir, order[..i], disk)
        invariant spawned == old(spawned) + Commands(dir, order[..i], discards, disk)
      {
        assert order[..i + 1][..i] == order[..i];
        ClearedNext(dir, order, i, disk);
        left := ClearOneClient(left, order[i], discards, disk);
      }
      assert order[..|order|] == order;
      AllCleared(dir, order, disk);
    }

    /** `order` and `draftOrder` are the orders in which the old directory and the draft are read. */
    method SaveSession(list: seq<Saving>, order: seq<string>, draftOrder: seq<string>, disk: Disk, draftDisk: Disk)
      returns (ok: bool)
      requires saved.Some? && NoDuplicates(order) && forall n :: n in saved.value <==> n in order
      requires NoDuplicates(draftOrder) && forall n :: n in SaveAll(list).dir <==> n in draftOrder
      modifies this
      ensures ok == NobodyFails(list)
      ensures saved == Some(Save(old(saved).value, list, disk))
      ensures spawned == old(spawned) + if ok then Commands(old(saved).value, order, SaveAll(list).discards, disk)
                                        else Commands(SaveAll(list).dir, draftOrder, {}, draftDisk)
      ensures draft == if ok then if Left(old(saved).value, disk) == map[] then None else Some(SaveAll(list).dir)
                       else if Left(SaveAll(list).dir, draftDisk) == map[] then None
                       else Some(Left(SaveAll(list).dir, draftDisk))
    {
      draft := Some(map[]);
      var discards, failed := SaveAllClients(list);
      FailedExactlyWhen(list);
      ok := !failed;
      if ok {
        var left := ClearSavedSession(saved.value, order, discards, disk);
        saved := Some(left);
        if left == map[] {
          saved, draft := draft, None;
        }
      } else {
        var left := ClearSavedSession(draft.value, draftOrder, {}, draftDisk);
        draft := if left == map[] then None else Some(left);
      }
    }
  }
}
