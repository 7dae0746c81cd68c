/**
 The registry of Unix signal callbacks: three tables, and what the process
 does on a signal, which must agree with each other.
 */
module SignalHandler {
  import opened Wrappers

  type Signal = int
  type Id = nat

  /** What the process does on a signal; 0 is the default action. */
  datatype Disposition = Catcher | Other(code: nat)

  datatype Record = Record(signal: Signal, func: nat, data: nat)

  /** `catchable` are the signals whose disposition can be changed at all. */
  datatype Registry = Registry(
    lookup: map<Signal, seq<Id>>,
    records: map<Id, Record>,
    actions: map<Signal, Disposition>,
    nextId: Id,
    catchable: set<Signal>,
    dispositions: map<Signal, Disposition>)

  function Callbacks(r: Registry, signal: Signal): seq<Id> {
    if signal in r.lookup then r.lookup[signal] else []
  }

  /** The system call: it reports the old disposition, or nothing when it fails. */
  function SigAction(r: Registry, signal: Signal, d: Disposition): Registry {
    if signal in r.catchable then r.(dispositions := r.dispositions[signal := d]) else r
  }

  function OldAction(r: Registry, signal: Signal): Disposition {
    if signal in r.catchable && signal in r.dispositions then r.dispositions[signal] else Other(0)
  }

  function Catch(r: Registry, signal: Signal): Registry {
    SigAction(r, signal, Catcher).(actions := r.actions[signal := OldAction(r, signal)])
  }

  function Uncatch(r: Registry, signal: Signal): Registry {
    SigAction(r, signal, if signal in r.actions then r.actions[signal] else Other(0)).(actions := r.actions - {signal})
  }

  function Add(r: Registry, signal: Signal, func: nat, data: nat): Registry {
    var s := if signal in r.actions then r else Catch(r, signal);
    s.(nextId := r.nextId + 1,
       records := r.records[r.nextId := Record(signal, func, data)],
       lookup := r.lookup[signal := [r.nextId] + Callbacks(r, signal)])
  }

  function RemoveAll(list: seq<Id>, id: Id): seq<Id> {
    if list == [] then []
    else if list[0] == id then RemoveAll(list[1..], id)
    else [list[0]] + RemoveAll(list[1..], id)
  }

  function Remove(r: Registry, id: Id): Registry {
    if id !in r.records then r
    else
      var signal := r.records[id].signal;
      var left := RemoveAll(Callbacks(r, signal), id);
      var s := if left == [] then Uncatch(r, signal) else r;
      s.(lookup := r.lookup[signal := left], records := r.records - {id})
  }

  predicate IsFor(r: Registry, id: Id, func: nat, data: nat) {
    id in r.records && r.records[id].func == func && r.records[id].data == data
  }

  /** The first callback on the list for this function with this data. */
  predicate FirstFor(r: Registry, list: seq<Id>, k: nat, func: nat, data: nat) {
    k < |list| && IsFor(r, list[k], func, data) && forall j | 0 <= j < k :: !IsFor(r, list[j], func, data)
  }

  function FindByFunc(r: Registry, list: seq<Id>, func: nat, data: nat): (found: Option<Id>)
    ensures found.Some? ==> exists k: nat :: FirstFor(r, list, k, func, data) && list[k] == found.value
    ensures found.None? ==> forall k | 0 <= k < |list| :: !IsFor(r, list[k], func, data)
  {
    if list == [] then None
    else if IsFor(r, list[0], func, data) then
      assert FirstFor(r, list, 0, func, data);
      Some(list[0])
    else
      var later := FindByFunc(r, list[1..], func, data);
      assert forall k | 0 < k < |list| :: list[k] == list[1..][k - 1];
      assert later.Some? ==> exists k: nat :: FirstFor(r, list, k, func, data) && list[k] == later.value by {
        if later.Some? {
          var k: nat :| FirstFor(r, list[1..], k, func, data) && list[1..][k] == later.value;
          assert FirstFor(r, list, k + 1, func, data) && list[k + 1] == later.value;
        }
      }
      later
  }

  function RemoveFunc(r: Registry, signal: Signal, func: nat, data: nat): Registry {
    var found := FindByFunc(r, Callbacks(r, signal), func, data);
    if found.Some? then Remove(r, found.value) else r
  }

  datatype Request =
    | AddOne(signal: Signal, func: nat, data: nat)
    | RemoveOne(id: Id)
    | RemoveByFunc(signal: Signal, func: nat, data: nat)

  function Next(r: Registry, q: Request): Registry {
    match q
    case AddOne(signal, func, data) => Add(r, signal, func, data)
    case RemoveOne(id) => Remove(r, id)
    case RemoveByFunc(signal, func, data) => RemoveFunc(r, signal, func, data)
  }

  function Initial(catchable: set<Signal>, original: map<Signal, Disposition>): Registry {
    Registry(map[], map[], map[], 1, catchable, original)
  }

  function Run(r: Registry, qs: seq<Request>): Registry {
    if qs == [] then r else Next(Run(r, qs[..|qs| - 1]), qs[|qs| - 1])
  }

  // ----- agreement -----

  predicate LatestFirst(list: seq<Id>) {
    forall i, j | 0 <= i < j < |list| :: list[i] > list[j]
  }

  /** Whatever is listed under a signal has a record for that signal, and the latest comes first. */
  predicate ListOk(list: seq<Id>, signal: Signal, records: map<Id, Record>) {
    && LatestFirst(list)
    && forall k | 0 <= k < |list| :: list[k] in records && records[list[k]].signal == signal
  }

  predicate RecordOk(r: Registry, id: Id) {
    id in r.records ==> id < r.nextId && id in Callbacks(r, r.records[id].signal)
  }

  /**
   The old action is kept exactly while a callback needs the signal caught; the
   process catches what has a callback and can be caught, and reacts to all
   else as it always did.
   */
  predicate SignalOk(r: Registry, original: map<Signal, Disposition>, signal: Signal) {
    && (signal in r.actions <==> Callbacks(r, signal) != [])
    && (signal in r.actions && signal in r.catchable && signal in original ==> r.actions[signal] == original[signal])
    && (signal in r.dispositions <==> signal in original)
    && (signal in r.catchable ==> signal in original)
    && (signal in original ==>
          r.dispositions[signal] == if Callbacks(r, signal) != [] && signal in r.catchable then Catcher
                                    else original[signal])
  }

  ghost predicate Valid(r: Registry, original: map<Signal, Disposition>) {
    && (forall signal :: ListOk(Callbacks(r, signal), signal, r.records))
    && (forall id :: RecordOk(r, id))
    && (forall signal :: SignalOk(r, original, signal))
  }

  lemma {:induction false} RemoveAllMembers(list: seq<Id>, id: Id)
    ensures forall x :: x in RemoveAll(list, id) <==> x in list && x != id
    ensures id !in list ==> RemoveAll(list, id) == list
  {
    if list != [] {
      RemoveAllMembers(list[1..], id);
      assert list == [list[0]] + list[1..];
    }
  }

  lemma {:induction false} RemoveAllOrder(list: seq<Id>, id: Id)
    requires LatestFirst(list)
    ensures LatestFirst(RemoveAll(list, id))
  {
    if list != [] {
      var left := RemoveAll(list[1..], id);
      RemoveAllOrder(list[1..], id);
      RemoveAllMembers(list[1..], id);
      forall k | 0 <= k < |left|
        ensures list[0] > left[k]
      {
        assert left[k] in left;
        var j :| 0 <= j < |list[1..]| && list[1..][j] == left[k];
      }
    }
  }

  lemma AddedLists(r: Registry, original: map<Signal, Disposition>, signal: Signal, func: nat, data: nat, x: Signal)
    requires Valid(r, original)
    ensures var s := Add(r, signal, func, data);
            && Callbacks(s, x) == (if x == signal then [r.nextId] + Callbacks(r, x) else Callbacks(r, x))
            && ListOk(Callbacks(s, x), x, s.records)
  {
    var list := Callbacks(r, x);
    assert ListOk(list, x, r.records) && !(r.nextId in r.records) by {
      assert RecordOk(r, r.nextId);
    }
    forall k | 0 <= k < |list|
      ensures list[k] < r.nextId
    {
      assert RecordOk(r, list[k]);
    }
  }

  lemma AddValid(r: Registry, original: map<Signal, Disposition>, signal: Signal, func: nat, data: nat)
    requires Valid(r, original)
    ensures Valid(Add(r, signal, func, data), original)
  {
    var s := Add(r, signal, func, data);
    forall x: Signal
      ensures ListOk(Callbacks(s, x), x, s.records) && SignalOk(s, original, x)
    {
      AddedLists(r, original, signal, func, data, x);
      assert SignalOk(r, original, x);
    }
    forall id: Id
      ensures RecordOk(s, id)
    {
      assert RecordOk(r, id);
      AddedLists(r, original, signal, func, data, if id in s.records then s.records[id].signal else 0);
    }
  }

  lemma RemovedLists(r: Registry, original: map<Signal, Disposition>, id: Id, x: Signal)
    requires Valid(r, original) && id in r.records
    ensures var s := Remove(r, id);
            && Callbacks(s, x) == (if x == r.records[id].signal then RemoveAll(Callbacks(r, x), id) else Callbacks(r, x))
            && ListOk(Callbacks(s, x), x, s.records)
  {
    var list := Callbacks(r, x);
    var left := RemoveAll(list, id);
    assert ListOk(list, x, r.records);
    RemoveAllMembers(list, id);
    RemoveAllOrder(list, id);
    forall k | 0 <= k < |left|
      ensures left[k] in list && left[k] != id
    {
      assert left[k] in left;
    }
  }

  lemma RemoveValid(r: Registry, original: map<Signal, Disposition>, id: Id)
    requires Valid(r, original)
    ensures Valid(Remove(r, id), original)
  {
    if id in r.records {
      var s := Remove(r, id);
      forall x: Signal
        ensures ListOk(Callbacks(s, x), x, s.records) && SignalOk(s, original, x)
      {
        RemovedLists(r, original, id, x);
        assert SignalOk(r, original, x);
        assert RecordOk(r, id);
      }
      forall other: Id
        ensures RecordOk(s, other)
      {
        assert RecordOk(r, other);
        var x := if other in s.records then s.records[other].signal else 0;
        RemovedLists(r, original, id, x);
        RemoveAllMembers(Callbacks(r, x), id);
      }
    }
  }

  lemma NextValid(r: Registry, original: map<Signal, Disposition>, q: Request)
    requires Valid(r, original)
    ensures Valid(Next(r, q), original)
  {
    match q
    case AddOne(signal, func, data) => AddValid(r, original, signal, func, data);
    case RemoveOne(id) => RemoveValid(r, original, id);
    case RemoveByFunc(signal, func, data) =>
      var found := FindByFunc(r, Callbacks(r, signal), func, data);
      if found.Some? {
        RemoveValid(r, original, found.value);
      }
  }

  /** Over any sequence of calls the three tables and the process agree. */
  lemma {:induction false} TablesAgree(catchable: set<Signal>, original: map<Signal, Disposition>, qs: seq<Request>)
    requires catchable <= original.Keys
    ensures Valid(Run(Initial(catchable, original), qs), original)
  {
    if qs != [] {
      TablesAgree(catchable, original, qs[..|qs| - 1]);
      NextValid(Run(Initial(catchable, original), qs[..|qs| - 1]), original, qs[|qs| - 1]);
    }
  }

  /** Removing by function removes the latest registration of that function with that data. */
  lemma FindsLatest(r: Registry, original: map<Signal, Disposition>, signal: Signal, func: nat, data: nat)
    requires Valid(r, original)
    ensures var found := FindByFunc(r, Callbacks(r, signal), func, data);
            && (found.Some? ==> found.value in r.records && r.records[found.value] == Record(signal, func, data))
            && forall id | id in r.records && r.records[id] == Record(signal, func, data) ::
                 found.Some? && id <= found.value
  {
    var list := Callbacks(r, signal);
    var found := FindByFunc(r, list, func, data);
    assert ListOk(list, signal, r.records);
    if found.Some? {
      var k: nat :| FirstFor(r, list, k, func, data) && list[k] == found.value;
    }
    forall id | id in r.records && r.records[id] == Record(signal, func, data)
      ensures found.Some? && id <= found.value
    {
      assert RecordOk(r, id);
      var j :| 0 <= j < |list| && list[j] == id;
      assert IsFor(r, list[j], func, data);
      var k: nat :| FirstFor(r, list, k, func, data) && list[k] == found.value;
    }
  }

  /** What is added is found again by signal, function and data, before anything that was there. */
  lemma AddedIsFound(r: Registry, original: map<Signal, Disposition>, signal: Signal, func: nat, data: nat)
    requires Valid(r, original)
    ensures var s := Add(r, signal, func, data);
            && r.nextId !in r.records && r.nextId in s.records && s.records[r.nextId] == Record(signal, func, data)
            && (forall id | id in r.records :: id in s.records && s.records[id] == r.records[id])
            && FindByFunc(s, Callbacks(s, signal), func, data) == Some(r.nextId)
            && RemoveFunc(s, signal, func, data) == Remove(s, r.nextId)
  {
    var s := Add(r, signal, func, data);
    assert RecordOk(r, r.nextId);
    AddedLists(r, original, signal, func, data, signal);
    assert IsFor(s, Callbacks(s, signal)[0], func, data);
  }

  lemma AddedAndRemovedList(r: Registry, original: map<Signal, Disposition>, signal: Signal, func: nat, data: nat, x: Signal)
    requires Valid(r, original)
    ensures Callbacks(Remove(Add(r, signal, func, data), r.nextId), x) == Callbacks(r, x)
  {
    var s := Add(r, signal, func, data);
    var list := Callbacks(r, x);
    AddValid(r, original, signal, func, data);
    AddedLists(r, original, signal, func, data, x);
    RemovedLists(s, original, r.nextId, x);
    assert RecordOk(r, r.nextId) && ListOk(list, x, r.records);
    assert r.nextId !in list;
    RemoveAllMembers(list, r.nextId);
    assert ([r.nextId] + list)[1..] == list;
  }

  predicate SameAt(r: Registry, t: Registry, x: Signal) {
    && Callbacks(t, x) == Callbacks(r, x) && (x in t.actions <==> x in r.actions)
    && (x in t.dispositions <==> x in r.dispositions)
    && (x in r.dispositions ==> t.dispositions[x] == r.dispositions[x])
  }

  lemma SameEverywhere(r: Registry, t: Registry)
    requires forall x :: SameAt(r, t, x)
    ensures t.dispositions == r.dispositions && t.actions.Keys == r.actions.Keys
    ensures forall x :: Callbacks(t, x) == Callbacks(r, x)
  {
    forall x: Signal
      ensures Callbacks(t, x) == Callbacks(r, x)
    {
      assert SameAt(r, t, x);
    }
    assert t.actions.Keys == r.actions.Keys by {
      forall x: Signal
        ensures x in t.actions.Keys <==> x in r.actions.Keys
      {
        assert SameAt(r, t, x);
      }
    }
    assert t.dispositions == r.dispositions by {
      forall x: Signal
        ensures x in t.dispositions <==> x in r.dispositions
        ensures x in r.dispositions ==> t.dispositions[x] == r.dispositions[x]
      {
        assert SameAt(r, t, x);
      }
    }
  }

  lemma AddIsUndoneAt(r: Registry, original: map<Signal, Disposition>, signal: Signal, func: nat, data: nat, x: Signal)
    requires Valid(r, original)
    ensures SameAt(r, Remove(Add(r, signal, func, data), r.nextId), x)
  {
    var s := Add(r, signal, func, data);
    AddValid(r, original, signal, func, data);
    RemoveValid(s, original, r.nextId);
    AddedAndRemovedList(r, original, signal, func, data, x);
    assert SignalOk(r, original, x) && SignalOk(Remove(s, r.nextId), original, x);
  }

  /** Adding and removing a callback leaves every record, every list and every disposition as it was. */
  lemma AddIsUndone(r: Registry, original: map<Signal, Disposition>, signal: Signal, func: nat, data: nat)
    requires Valid(r, original)
    ensures var t := Remove(Add(r, signal, func, data), r.nextId);
            && t.records == r.records && t.dispositions == r.dispositions && t.actions.Keys == r.actions.Keys
            && forall x :: Callbacks(t, x) == Callbacks(r, x)
  {
    var t := Remove(Add(r, signal, func, data), r.nextId);
    assert RecordOk(r, r.nextId);
    forall x: Signal
      ensures SameAt(r, t, x)
    {
      AddIsUndoneAt(r, original, signal, func, data, x);
    }
    SameEverywhere(r, t);
  }

  /** So that removing by function takes back what adding did. */
  lemma AddIsUndoneByFunc(r: Registry, original: map<Signal, Disposition>, signal: Signal, func: nat, data: nat)
    requires Valid(r, original)
    ensures var t := RemoveFunc(Add(r, signal, func, data), signal, func, data);
            && t.records == r.records && t.dispositions == r.dispositions && t.actions.Keys == r.actions.Keys
            && forall x :: Callbacks(t, x) == Callbacks(r, x)
  {
    AddedIsFound(r, original, signal, func, data);
    AddIsUndone(r, original, signal, func, data);
  }

  lemma ListedHasRecord(list: seq<Id>, signal: Signal, records: map<Id, Record>)
    requires ListOk(list, signal, records)
    ensures list != [] ==> records != map[]
  {
    if list != [] {
      assert list[0] in records;
    }
  }

  /** Once everything has been removed again, the process reacts to every signal as it did before. */
  lemma AllRemoved(catchable: set<Signal>, original: map<Signal, Disposition>, qs: seq<Request>)
    requires catchable <= original.Keys
    requires Run(Initial(catchable, original), qs).records == map[]
    ensures Run(Initial(catchable, original), qs).dispositions == original
    ensures Run(Initial(catchable, original), qs).actions == map[]
  {
    TablesAgree(catchable, original, qs);
    var r := Run(Initial(catchable, original), qs);
    forall x: Signal
      ensures x !in r.actions && (x in r.dispositions <==> x in original)
      ensures x in original ==> r.dispositions[x] == original[x]
    {
      assert SignalOk(r, original, x) && ListOk(Callbacks(r, x), x, r.records);
      ListedHasRecord(Callbacks(r, x), x, r.records);
    }
  }

  // ----- the object -----

  class Handler {
    var lookup: map<Signal, seq<Id>>
    var idLookup: map<Id, Record>
    var actionLookup: map<Signal, Disposition>
    var nextId: Id
    const catchable: set<Signal>
    var dispositions: map<Signal, Disposition>

    ghost function Now(): Registry
      reads this
    {
      Registry(lookup, idLookup, actionLookup, nextId, catchable, dispositions)
    }

    constructor (catchable: set<Signal>, original: map<Signal, Disposition>)
      ensures Now() == Initial(catchable, original)
    {
      lookup, idLookup, actionLookup, nextId := map[], map[], map[], 1;
      this.catchable := catchable;
      dispositions := original;
    }

    method CatchSignal(signal: Signal)
      modifies this`actionLookup, this`dispositions
      ensures Now() == Catch(old(Now()), signal)
    {
      var previous := Other(0);
      if signal in catchable {
        if signal in dispositions {
          previous := dispositions[signal];
        }
        dispositions := dispositions[signal := Catcher];
      }
      actionLookup := actionLookup[signal := previous];
    }

    method UncatchSignal(signal: Signal)
      modifies this`actionLookup, this`dispositions
      ensures Now() == Uncatch(old(Now()), signal)
    {
      var previous := if signal in actionLookup then actionLookup[signal] else Other(0);
      actionLookup := actionLookup - {signal};
      if signal in catchable {
        dispositions := dispositions[signal := previous];
      }
    }

    method AddCallback(signal: Signal, func: nat, data: nat) returns (id: Id)
      modifies this
      ensures id == old(nextId) && Now() == Add(old(Now()), signal, func, data)
    {
      id := nextId;
      nextId := nextId + 1;
      if signal !in actionLookup {
        CatchSignal(signal);
      }
      idLookup := idLookup[id := Record(signal, func, data)];
      var list := if signal in lookup then lookup[signal] else [];
      lookup := lookup[signal := [id] + list];
    }

    method RemoveRecord(id: Id)
      requires id in idLookup
      modifies this
      ensures Now() == Remove(old(Now()), id)
    {
      var signal := idLookup[id].signal;
      var list := RemoveAll(if signal in lookup then lookup[signal] else [], id);
      if list == [] {
        UncatchSignal(signal);
      }
      lookup := lookup[signal := list];
      idLookup := idLookup - {id};
    }

    method RemoveCallback(id: Id)
      modifies this
      ensures Now() == Remove(old(Now()), id)
    {
      if id in idLookup {
        RemoveRecord(id);
      }
    }

    method FindCallbackByFunc(signal: Signal, func: nat, data: nat) returns (found: Option<Id>)
      ensures found == FindByFunc(Now(), Callbacks(Now(), signal), func, data)
    {
      var list := if signal in lookup then lookup[signal] else [];
      var rest := list;
      while rest != []
        invariant FindByFunc(Now(), list, func, data) == FindByFunc(Now(), rest, func, data)
      {
        var id := rest[0];
        if id in idLookup && idLookup[id].func == func && idLookup[id].data == data {
          return Some(id);
        }
        rest := rest[1..];
      }
      return None;
    }

    method RemoveCallbackByFunc(signal: Signal, func: nat, data: nat)
      modifies this
      ensures Now() == RemoveFunc(old(Now()), signal, func, data)
    {
      var found := FindCallbackByFunc(signal, func, data);
      if found.Some? {
        RemoveRecord(found.value);
      }
    }
  }
}
