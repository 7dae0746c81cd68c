/**
 The properties of an XSMP client: an array in which a removed element is
 replaced by the last one, so that its order means nothing.
 */
module XsmpProperties {
  import opened Wrappers

  datatype Prop = Prop(name: string, kind: string, vals: seq<string>)

  /** The first property of that name, or the length of the array. */
  function IndexOf(props: seq<Prop>, name: string): (k: nat)
    ensures k <= |props|
    ensures k < |props| ==> props[k].name == name
    ensures forall j | 0 <= j < k :: props[j].name != name
  {
    if props == [] then 0
    else if props[0].name == name then 0
    else
      assert forall j | 0 < j < |props| :: props[j] == props[1..][j - 1];
      1 + IndexOf(props[1..], name)
  }

  /** The last element takes the place of the removed one. */
  function RemoveFast(props: seq<Prop>, k: nat): seq<Prop>
    requires k < |props|
  {
    props[k := props[|props| - 1]][..|props| - 1]
  }

  function Delete(props: seq<Prop>, name: string): seq<Prop> {
    var k := IndexOf(props, name);
    if k == |props| then props else RemoveFast(props, k)
  }

  function Put(props: seq<Prop>, p: Prop): seq<Prop> {
    Delete(props, p.name) + [p]
  }

  datatype Change = SetProperties(batch: seq<Prop>) | DeleteProperties(names: seq<string>)

  function Serve(props: seq<Prop>, r: Change): seq<Prop> {
    match r
    case SetProperties(batch) => PutAll(props, batch)
    case DeleteProperties(names) => DeleteAll(props, names)
  }

  function PutAll(props: seq<Prop>, batch: seq<Prop>): seq<Prop> {
    if batch == [] then props else Put(PutAll(props, batch[..|batch| - 1]), batch[|batch| - 1])
  }

  function DeleteAll(props: seq<Prop>, names: seq<string>): seq<Prop> {
    if names == [] then props else Delete(DeleteAll(props, names[..|names| - 1]), names[|names| - 1])
  }

  function ServeAll(props: seq<Prop>, rs: seq<Change>): seq<Prop> {
    if rs == [] then props else Serve(ServeAll(props, rs[..|rs| - 1]), rs[|rs| - 1])
  }

  function NameSet(names: seq<string>): set<string> {
    if names == [] then {} else NameSet(names[..|names| - 1]) + {names[|names| - 1]}
  }

  // ----- the map it stands for -----

  predicate Distinct(props: seq<Prop>) {
    forall i, j | 0 <= i < |props| && 0 <= j < |props| && props[i].name == props[j].name :: i == j
  }

  ghost predicate Holds(props: seq<Prop>, name: string) {
    exists i :: 0 <= i < |props| && props[i].name == name
  }

  /** The array holds exactly these bindings, each once. */
  ghost predicate Represents(props: seq<Prop>, m: map<string, Prop>) {
    && Distinct(props)
    && (forall i | 0 <= i < |props| :: props[i].name in m && m[props[i].name] == props[i])
    && (forall n | n in m :: Holds(props, n))
  }

  /** What clients mean: the last write of a name wins. */
  function Written(m: map<string, Prop>, batch: seq<Prop>): map<string, Prop> {
    if batch == [] then m else Written(m, batch[..|batch| - 1])[batch[|batch| - 1].name := batch[|batch| - 1]]
  }

  function Meant(m: map<string, Prop>, rs: seq<Change>): map<string, Prop> {
    if rs == [] then m
    else
      var before := Meant(m, rs[..|rs| - 1]);
      match rs[|rs| - 1]
      case SetProperties(batch) => Written(before, batch)
      case DeleteProperties(names) => before - NameSet(names)
  }

  lemma DeleteRepresents(props: seq<Prop>, m: map<string, Prop>, name: string)
    requires Represents(props, m)
    ensures Represents(Delete(props, name), m - {name})
  {
    var k := IndexOf(props, name);
    var left := Delete(props, name);
    if k < |props| {
      var last := |props| - 1;
      forall n | n in m - {name}
        ensures Holds(left, n)
      {
        assert Holds(props, n);
        var i :| 0 <= i < |props| && props[i].name == n;
        assert left[if i == last then k else i].name == n;
      }
    } else {
      assert !Holds(props, name);
      assert m - {name} == m;
    }
  }

  lemma AppendRepresents(props: seq<Prop>, m: map<string, Prop>, p: Prop)
    requires Represents(props, m) && p.name !in m
    ensures Represents(props + [p], m[p.name := p])
  {
    var more := props + [p];
    forall n: string | n in m || n == p.name
      ensures Holds(more, n)
    {
      if n == p.name {
        assert more[|props|].name == n;
      } else {
        assert Holds(props, n);
        var i :| 0 <= i < |props| && props[i].name == n;
        assert more[i].name == n;
      }
    }
  }

  lemma PutRepresents(props: seq<Prop>, m: map<string, Prop>, p: Prop)
    requires Represents(props, m)
    ensures Represents(Put(props, p), m[p.name := p])
  {
    DeleteRepresents(props, m, p.name);
    AppendRepresents(Delete(props, p.name), m - {p.name}, p);
    assert (m - {p.name})[p.name := p] == m[p.name := p];
  }

  lemma {:induction false} PutAllRepresents(props: seq<Prop>, m: map<string, Prop>, batch: seq<Prop>)
    requires Represents(props, m)
    ensures Represents(PutAll(props, batch), Written(m, batch))
  {
    if batch != [] {
      var k := |batch| - 1;
      PutAllRepresents(props, m, batch[..k]);
      PutRepresents(PutAll(props, batch[..k]), Written(m, batch[..k]), batch[k]);
    }
  }

  lemma {:induction false} DeleteAllRepresents(props: seq<Prop>, m: map<string, Prop>, names: seq<string>)
    requires Represents(props, m)
    ensures Represents(DeleteAll(props, names), m - NameSet(names))
  {
    if names == [] {
      assert m - {} == m;
    } else {
      var k := |names| - 1;
      DeleteAllRepresents(props, m, names[..k]);
      DeleteRepresents(DeleteAll(props, names[..k]), m - NameSet(names[..k]), names[k]);
      assert m - NameSet(names) == (m - NameSet(names[..k])) - {names[k]};
    }
  }

  /** After any changes, duplicates within a batch included, no name is held twice and every name has its last value. */
  lemma {:induction false} LastWriteWins(props: seq<Prop>, m: map<string, Prop>, rs: seq<Change>)
    requires Represents(props, m)
    ensures Represents(ServeAll(props, rs), Meant(m, rs))
  {
    if rs != [] {
      var k := |rs| - 1;
      LastWriteWins(props, m, rs[..k]);
      match rs[k]
      case SetProperties(batch) => PutAllRepresents(ServeAll(props, rs[..k]), Meant(m, rs[..k]), batch);
      case DeleteProperties(names) => DeleteAllRepresents(ServeAll(props, rs[..k]), Meant(m, rs[..k]), names);
    }
  }

  lemma PropertiesOfAClient(rs: seq<Change>)
    ensures Represents(ServeAll([], rs), Meant(map[], rs))
  {
    LastWriteWins([], map[], rs);
  }

  /** Looking a name up in the array is looking it up in the map. */
  lemma LookupAgrees(props: seq<Prop>, m: map<string, Prop>, name: string)
    requires Represents(props, m)
    ensures IndexOf(props, name) < |props| <==> name in m
    ensures IndexOf(props, name) < |props| ==> props[IndexOf(props, name)] == m[name]
  {
    if name in m {
      assert Holds(props, name);
    }
  }
}
