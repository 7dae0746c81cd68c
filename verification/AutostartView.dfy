/**
 The list of autostart applications, one for each name, kept up to date while
 desktop files come and go in a stack of directories: the user's own (0) on top
 of the system's.
 */
module AutostartView {
  import opened Wrappers
  import opened AutostartApp

  type View = map<string, App>

  /** The copies of each file. */
  type Tree = map<string, Disk>

  function Files(tree: Tree, name: string): Disk {
    if name in tree then tree[name] else map[]
  }

  function Copies(tree: Tree, name: string): set<nat> {
    Files(tree, name).Keys
  }

  predicate IsLeast(k: nat, s: set<nat>) {
    k in s && forall j | j in s :: k <= j
  }

  /** The application stands where the topmost copy is, and knows the topmost system copy. */
  predicate Placed(a: App, copies: set<nat>) {
    && a.position.Some? && IsLeast(a.position.value, copies)
    && (if a.system.Some? then IsLeast(a.system.value, copies - {0}) else copies - {0} == {})
    && !a.timer
  }

  function Known(view: View, name: string): Option<App> {
    if name in view then Some(view[name]) else None
  }

  /** There is an application, in its place, exactly if there is a copy. */
  predicate Right(a: Option<App>, copies: set<nat>) {
    if a.Some? then copies != {} && Placed(a.value, copies) else copies == {}
  }

  /** The application says what the copy in its place says, and nothing has been edited. */
  predicate Loads(a: Option<App>, files: Disk, langs: seq<string>) {
    a.Some? ==>
      && a.value.position == Some(a.value.path) && a.value.path in files
      && a.value.fields == Loaded(files[a.value.path], langs)
      && a.value.mask == {} && a.value.base.None? && !a.value.skip
  }

  ghost predicate Agrees(view: View, tree: Tree, langs: seq<string>) {
    forall name: string ::
      Right(Known(view, name), Copies(tree, name)) && Loads(Known(view, name), Files(tree, name), langs)
  }

  // ----- files that come or change -----

  function Appear(view: View, x: nat, name: string, kf: KeyFile, langs: seq<string>): View {
    view[name := Read(Known(view, name), x, kf, langs)]
  }

  function WithFile(tree: Tree, x: nat, name: string, kf: KeyFile): Tree {
    tree[name := (if name in tree then tree[name] else map[])[x := kf]]
  }

  lemma ReadPlaced(known: Option<App>, x: nat, kf: KeyFile, langs: seq<string>, copies: set<nat>)
    requires Right(known, copies)
    ensures Right(Some(Read(known, x, kf, langs)), copies + {x})
  {
    var more := copies + {x};
    if known.Some? {
      var a := known.value;
      if a.position == Some(x) {
        assert more == copies;
      } else if Below(a.position, x) {
        assert more - {0} == copies - {0} + {x};
      } else if x > 0 {
        assert 0 !in copies && more - {0} == more;
      } else {
        assert more - {0} == copies - {0};
      }
    } else if x > 0 {
      assert more == {x} && more - {0} == {x};
    } else {
      assert more == {0} && more - {0} == {};
    }
  }

  /** The check in the code that a file just read does not lie below the known system copy never fails. */
  lemma SystemNeverAbove(a: App, x: nat, copies: set<nat>)
    requires Placed(a, copies) && x > 0 && !Below(a.position, x)
    ensures a.system.Some? ==> x <= a.system.value
  {
  }

  /** A file that matters is read anew, and one that does not leaves everything as it was read. */
  lemma ReadLoads(known: Option<App>, x: nat, kf: KeyFile, langs: seq<string>, files: Disk)
    requires Right(known, files.Keys) && Loads(known, files, langs)
    ensures Loads(Some(Read(known, x, kf, langs)), files[x := kf], langs)
  {
  }

  /**
   While a save is pending, or when the file is the one just saved, or lies below
   the one that was read, nothing that was edited is touched: at most a higher
   system copy is noted.
   */
  lemma FoundLeavesEdits(a: App, x: nat, kf: KeyFile, langs: seq<string>)
    requires a.timer || Below(a.position, x) || (a.position == Some(x) && a.skip)
    ensures var b := Read(Some(a), x, kf, langs);
            && b.fields == a.fields && b.mask == a.mask && b.base == a.base && b.path == a.path
            && b.position == a.position && b.timer == a.timer
            && (b.system == a.system || (b.system == Some(x) && (a.system.Some? ==> x < a.system.value)))
            && (b.skip == a.skip || a.position == Some(x))
  {
  }

  lemma AppearAgrees(view: View, tree: Tree, x: nat, name: string, kf: KeyFile, langs: seq<string>)
    requires Agrees(view, tree, langs)
    ensures Agrees(Appear(view, x, name, kf, langs), WithFile(tree, x, name, kf), langs)
  {
    var after, more := Appear(view, x, name, kf, langs), WithFile(tree, x, name, kf);
    forall other: string
      ensures Right(Known(after, other), Copies(more, other)) && Loads(Known(after, other), Files(more, other), langs)
    {
      assert Right(Known(view, other), Copies(tree, other));
      if other == name {
        assert Copies(more, name) == Copies(tree, name) + {x};
        ReadPlaced(Known(view, name), x, kf, langs, Copies(tree, name));
        ReadLoads(Known(view, name), x, kf, langs, Files(tree, name));
      }
    }
  }

  // ----- files that go -----

  /** The topmost directory below `x` that still has a copy. */
  function FindBelow(dirs: seq<nat>, copies: set<nat>, x: nat): (found: Option<nat>)
    ensures found.Some? ==> found.value in dirs && found.value in copies && found.value > x
    ensures forall d | d in dirs && d in copies && d > x :: found.Some? && found.value <= d
  {
    if dirs == [] then None
    else
      var rest := FindBelow(dirs[1..], copies, x);
      assert forall d :: d in dirs <==> d == dirs[0] || d in dirs[1..];
      if dirs[0] > x && dirs[0] in copies then LowerOf(dirs[0], rest) else rest
  }

  /** What becomes of the application when the copy in directory `x` has gone; `disk` is what is left. */
  function HandleDelete(a: App, x: nat, disk: Disk, dirs: seq<nat>, langs: seq<string>): Option<App> {
    if a.system.Some? && a.system.value < x then Some(a)
    else if a.position.None? || x < a.position.value then Some(a)
    else if a.position == Some(x) && (a.system == Some(x) || a.system.None?) then None
    else if a.system == Some(x) then Some(a.(system := FindBelow(dirs, disk.Keys, x)))
    else if a.position == Some(x) then
      Some(if a.system.value in disk then Read(Some(a.(position := None)), a.system.value, disk[a.system.value], langs)
           else a.(position := None))
    else Some(a)
  }

  function WithoutFile(tree: Tree, x: nat, name: string): Tree {
    if name in tree then tree[name := tree[name] - {x}] else tree
  }

  function Vanish(view: View, x: nat, name: string, tree: Tree, dirs: seq<nat>, langs: seq<string>): View {
    if name !in view || name !in tree then view
    else
      var a := HandleDelete(view[name], x, tree[name] - {x}, dirs, langs);
      if a.Some? then view[name := a.value] else view - {name}
  }

  /** The topmost copy was a system file, and there is another one below it. */
  predicate LosesApp(a: App, x: nat, left: set<nat>) {
    a.position == Some(x) && x > 0 && left != {}
  }

  /** A deletion is handled rightly exactly unless it was of the topmost copy, in a system directory, with another below. */
  lemma DeleteRightExactlyWhen(a: App, x: nat, disk: Disk, dirs: seq<nat>, langs: seq<string>)
    requires Placed(a, disk.Keys + {x}) && x !in disk && forall d | d in disk :: d in dirs
    ensures Right(HandleDelete(a, x, disk, dirs, langs), disk.Keys) <==> !LosesApp(a, x, disk.Keys)
  {
    var p := a.position.value;
    if a.system.Some? && a.system.value < x {
      DeletedLower(a, x, disk.Keys);
    } else if p == x {
      DeletedTop(a, x, disk.Keys);
      if x == 0 && a.system.Some? {
        ReadPlacedAnew(a, disk[a.system.value], langs, disk.Keys);
      }
    } else {
      DeletedSystem(a, x, disk.Keys);
    }
  }

  /** Whatever is left after a deletion says what its file says. */
  lemma DeleteLoads(a: App, x: nat, files: Disk, dirs: seq<nat>, langs: seq<string>)
    requires Placed(a, files.Keys) && Loads(Some(a), files, langs) && x in files
    ensures Right(HandleDelete(a, x, files - {x}, dirs, langs), (files - {x}).Keys) ==>
              Loads(HandleDelete(a, x, files - {x}, dirs, langs), files - {x}, langs)
  {
  }

  /** A copy below all that matter goes. */
  lemma DeletedLower(a: App, x: nat, left: set<nat>)
    requires Placed(a, left + {x}) && x !in left && a.system.Some? && a.system.value < x
    ensures Placed(a, left) && left != {} && a.position != Some(x) && a.system != Some(x) && a.position.value < x
  {
    var q := a.system.value;
    assert q in left + {x} - {0};
    assert q in left && a.position.value <= q;
    assert a.position.value in left + {x};
    assert forall j | j in left - {0} :: j in left + {x} - {0};
  }

  /** The topmost copy goes: the user's, or a system one, which then is the topmost of those as well. */
  lemma DeletedTop(a: App, x: nat, left: set<nat>)
    requires Placed(a, left + {x}) && x !in left && a.position == Some(x)
    ensures x > 0 ==> a.system == Some(x)
    ensures x == 0 ==> left - {0} == left
    ensures x == 0 ==> if a.system.Some? then a.system.value > 0 && IsLeast(a.system.value, left) else left == {}
  {
    if x > 0 {
      assert left + {x} - {0} == left + {x} by {
        assert 0 !in left + {x};
      }
      assert x in left + {x} - {0};
      assert a.system.value in left + {x};
    } else {
      assert left + {x} - {0} == left;
    }
  }

  lemma ReadPlacedAnew(a: App, kf: KeyFile, langs: seq<string>, left: set<nat>)
    requires a.system.Some? && a.system.value > 0 && IsLeast(a.system.value, left) && !a.timer && left - {0} == left
    ensures Placed(Read(Some(a.(position := None)), a.system.value, kf, langs), left)
  {
  }

  /** A system copy goes while the user's stands. */
  lemma DeletedSystem(a: App, x: nat, left: set<nat>)
    requires Placed(a, left + {x}) && x !in left && a.position != Some(x) && !(a.system.Some? && a.system.value < x)
    ensures a.position == Some(0) && a.system == Some(x) && left != {} && IsLeast(0, left)
    ensures left - {0} == left + {x} - {0} - {x} && forall j | j in left - {0} :: j > x
  {
    var p := a.position.value;
    var below := left + {x} - {0};
    assert p in left + {x} && p in left && p <= x;
    assert x in below;
    assert a.system.Some? && a.system.value <= x;
    assert p == 0 || p in below;
    assert forall j | j in left - {0} :: j in below;
  }

  lemma VanishOne(view: View, tree: Tree, x: nat, name: string, dirs: seq<nat>, langs: seq<string>)
    requires Right(Known(view, name), Copies(tree, name))
    requires name in tree && x in tree[name] && forall d | d in tree[name] :: d in dirs
    ensures name in view
    ensures Right(Known(Vanish(view, x, name, tree, dirs, langs), name), Copies(WithoutFile(tree, x, name), name)) <==>
              !LosesApp(view[name], x, tree[name].Keys - {x})
  {
    var left := tree[name] - {x};
    assert x in tree[name].Keys;
    assert left.Keys == tree[name].Keys - {x} && left.Keys + {x} == tree[name].Keys;
    DeleteRightExactlyWhen(view[name], x, left, dirs, langs);
    assert Known(Vanish(view, x, name, tree, dirs, langs), name) == HandleDelete(view[name], x, left, dirs, langs);
  }

  lemma VanishLoads(view: View, tree: Tree, x: nat, name: string, dirs: seq<nat>, langs: seq<string>)
    requires name in tree && x in tree[name] && name in view
    requires Right(Known(view, name), Copies(tree, name)) && Loads(Known(view, name), Files(tree, name), langs)
    requires Right(Known(Vanish(view, x, name, tree, dirs, langs), name), Copies(WithoutFile(tree, x, name), name))
    ensures Loads(Known(Vanish(view, x, name, tree, dirs, langs), name), Files(WithoutFile(tree, x, name), name), langs)
  {
    DeleteLoads(view[name], x, tree[name], dirs, langs);
    assert Known(Vanish(view, x, name, tree, dirs, langs), name)
        == HandleDelete(view[name], x, tree[name] - {x}, dirs, langs);
  }

  lemma VanishAgrees(view: View, tree: Tree, x: nat, name: string, dirs: seq<nat>, langs: seq<string>)
    requires Agrees(view, tree, langs) && name in tree && x in tree[name] && forall d | d in tree[name] :: d in dirs
    ensures name in view
    ensures Agrees(Vanish(view, x, name, tree, dirs, langs), WithoutFile(tree, x, name), langs) <==>
              !LosesApp(view[name], x, tree[name].Keys - {x})
  {
    var after, less := Vanish(view, x, name, tree, dirs, langs), WithoutFile(tree, x, name);
    assert Right(Known(view, name), Copies(tree, name));
    VanishOne(view, tree, x, name, dirs, langs);
    if Right(Known(after, name), Copies(less, name)) {
      VanishLoads(view, tree, x, name, dirs, langs);
    }
    forall other: string | other != name
      ensures Right(Known(after, other), Copies(less, other)) && Loads(Known(after, other), Files(less, other), langs)
    {
      assert Right(Known(view, other), Copies(tree, other));
      assert Known(after, other) == Known(view, other) && Files(less, other) == Files(tree, other);
    }
  }

  // ----- filling the list, and every run after that -----

  /** A desktop file is found while the directories are read, is created or is changed; or it is deleted. */
  datatype Event = Found(x: nat, name: string, kf: KeyFile) | Deleted(x: nat, name: string)

  datatype State = State(view: View, tree: Tree)

  function Next(s: State, e: Event, dirs: seq<nat>, langs: seq<string>): State {
    match e
    case Found(x, name, kf) => State(Appear(s.view, x, name, kf, langs), WithFile(s.tree, x, name, kf))
    case Deleted(x, name) => State(Vanish(s.view, x, name, s.tree, dirs, langs), WithoutFile(s.tree, x, name))
  }

  function Run(s: State, es: seq<Event>, dirs: seq<nat>, langs: seq<string>): State {
    if es == [] then s else Next(Run(s, es[..|es| - 1], dirs, langs), es[|es| - 1], dirs, langs)
  }

  /** What reading one directory finds. */
  function Listing(x: nat, names: seq<string>, tree: Tree): seq<Event>
    requires forall k | 0 <= k < |names| :: names[k] in tree && x in tree[names[k]]
  {
    if names == [] then []
    else
      var name := names[|names| - 1];
      Listing(x, names[..|names| - 1], tree) + [Found(x, name, tree[name][x])]
  }

  function AppearAll(view: View, x: nat, names: seq<string>, tree: Tree, langs: seq<string>): View
    requires forall k | 0 <= k < |names| :: names[k] in tree && x in tree[names[k]]
  {
    if names == [] then view
    else
      var k := |names| - 1;
      Appear(AppearAll(view, x, names[..k], tree, langs), x, names[k], tree[names[k]][x], langs)
  }

  /** Reading a directory is a run of its own, whatever was read before. */
  lemma {:induction false} ReadingIsARun(s: State, x: nat, names: seq<string>, tree: Tree,
                                         dirs: seq<nat>, langs: seq<string>)
    requires forall k | 0 <= k < |names| :: names[k] in tree && x in tree[names[k]]
    ensures AppearAll(s.view, x, names, tree, langs) == Run(s, Listing(x, names, tree), dirs, langs).view
  {
    if names != [] {
      var k := |names| - 1;
      ReadingIsARun(s, x, names[..k], tree, dirs, langs);
      var es := Listing(x, names, tree);
      assert es[..|es| - 1] == Listing(x, names[..k], tree);
    }
  }

  /** Files are in known directories, and only files that are there are deleted. */
  predicate Sensible(s: State, e: Event, dirs: seq<nat>) {
    if e.Found? then e.x in dirs else e.name in s.tree && e.x in s.tree[e.name]
  }

  predicate Harmless(s: State, e: Event) {
    e.Deleted? && e.name in s.view && e.name in s.tree ==> !LosesApp(s.view[e.name], e.x, s.tree[e.name].Keys - {e.x})
  }

  ghost predicate InDirs(tree: Tree, dirs: seq<nat>) {
    forall n, d | n in tree && d in tree[n] :: d in dirs
  }

  ghost predicate SensibleRun(s: State, es: seq<Event>, dirs: seq<nat>, langs: seq<string>) {
    es != [] ==>
      && SensibleRun(s, es[..|es| - 1], dirs, langs)
      && Sensible(Run(s, es[..|es| - 1], dirs, langs), es[|es| - 1], dirs)
  }

  lemma NextInDirs(s: State, e: Event, dirs: seq<nat>, langs: seq<string>)
    requires InDirs(s.tree, dirs) && Sensible(s, e, dirs)
    ensures InDirs(Next(s, e, dirs, langs).tree, dirs)
  {
  }

  /** One step keeps list and files in agreement exactly when it is not such a deletion. */
  lemma StepExactlyWhen(s: State, e: Event, dirs: seq<nat>, langs: seq<string>)
    requires Agrees(s.view, s.tree, langs) && InDirs(s.tree, dirs) && Sensible(s, e, dirs)
    ensures var t := Next(s, e, dirs, langs); Agrees(t.view, t.tree, langs) <==> Harmless(s, e)
  {
    match e
    case Found(x, name, kf) => AppearAgrees(s.view, s.tree, x, name, kf, langs);
    case Deleted(x, name) => VanishAgrees(s.view, s.tree, x, name, dirs, langs);
  }

  /** From the empty list on, through filling and any later changes, list and files agree. */
  lemma {:induction false} ViewOverRuns(es: seq<Event>, dirs: seq<nat>, langs: seq<string>)
    requires SensibleRun(State(map[], map[]), es, dirs, langs)
    requires forall k | 0 <= k < |es| :: Harmless(Run(State(map[], map[]), es[..k], dirs, langs), es[k])
    ensures var s := Run(State(map[], map[]), es, dirs, langs); Agrees(s.view, s.tree, langs) && InDirs(s.tree, dirs)
  {
    if es != [] {
      var n := |es| - 1;
      var s := Run(State(map[], map[]), es[..n], dirs, langs);
      forall k | 0 <= k < n
        ensures Harmless(Run(State(map[], map[]), es[..n][..k], dirs, langs), es[..n][k])
      {
        assert es[..n][..k] == es[..k];
      }
      ViewOverRuns(es[..n], dirs, langs);
      StepExactlyWhen(s, es[n], dirs, langs);
      NextInDirs(s, es[n], dirs, langs);
    }
  }

  /** Two system directories hold a file; when the upper copy is deleted the application is lost, the lower copy not. */
  lemma LowerCopyForgotten(name: string, upper: KeyFile, lower: KeyFile, langs: seq<string>)
    ensures var dirs := [0, 1, 2];
            var s := Next(Next(Next(State(map[], map[]), Found(1, name, upper), dirs, langs),
                               Found(2, name, lower), dirs, langs), Deleted(1, name), dirs, langs);
            name in s.tree && s.tree[name] == map[2 := lower] && name !in s.view
  {
    var s1 := Next(State(map[], map[]), Found(1, name, upper), [0, 1, 2], langs);
    assert s1.view[name].position == Some(1) && s1.view[name].system == Some(1);
    var s2 := Next(s1, Found(2, name, lower), [0, 1, 2], langs);
    assert s2.view[name].position == Some(1) && s2.view[name].system == Some(1);
  }
}
