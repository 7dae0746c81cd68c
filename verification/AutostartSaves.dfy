/**
 When saves and edits of an autostart application leave the system's own files
 alone. A save is made by the timer, and once more when the application is
 disposed of; both go by the mark that the timer is running.
 */
module AutostartSaves {
  import opened Wrappers
  import opened AutostartApp

  datatype Act = Make(edit: Edit) | Save(writable: bool)

  datatype Desk = Desk(app: App, disk: Disk)

  /** Deleting an application that only the user has removes its file; no act follows, the object is gone as well. */
  function Next(d: Desk, act: Act, langs: seq<string>): Desk {
    match act
    case Make(edit) =>
      Desk(Apply(d.app, edit), if edit.DeleteApp? && UserOnly(d.app) then d.disk - {d.app.path} else d.disk)
    case Save(writable) =>
      if d.app.timer then Desk(Saved(d.app, d.disk, writable, langs), DiskAfter(d.app, d.disk, writable, langs)) else d
  }

  function Run(d: Desk, acts: seq<Act>, langs: seq<string>): Desk {
    if acts == [] then d else Next(Run(d, acts[..|acts| - 1], langs), acts[|acts| - 1], langs)
  }

  // ----- one save -----

  /** A save takes a system copy away exactly if it finds the application reading from that copy, and equal to it. */
  lemma SystemCopyStandsExactlyWhen(a: App, disk: Disk, writable: bool, langs: seq<string>, k: nat)
    requires k in disk
    ensures k in DiskAfter(a, disk, writable, langs) <==> !(EqualsSystem(a, disk, langs) && a.path == k)
  {
  }

  // ----- whole runs -----

  /** The copies in the system's directories are those that were there, as they were. */
  ghost predicate SystemStands(before: Disk, after: Disk) {
    forall k: nat | k > 0 :: (k in before <==> k in after) && (k in before ==> after[k] == before[k])
  }

  /** The last thing that happened was a save that dropped the user's copy; edits that change nothing do not count. */
  predicate JustDropped(d: Desk, acts: seq<Act>, langs: seq<string>) {
    acts != [] &&
      var n := |acts| - 1;
      var before := Run(d, acts[..n], langs);
      match acts[n]
      case Make(edit) => Apply(before.app, edit) == before.app && JustDropped(d, acts[..n], langs)
      case Save(_) => before.app.timer && EqualsSystem(before.app, before.disk, langs)
  }

  /** Reading and writing agree on the place; with a save due, the user's directory, unless the copy was just dropped. */
  predicate InPlace(d: Desk, dropped: bool, langs: seq<string>) {
    && d.app.position == Some(d.app.path)
    && (d.app.system.Some? ==> d.app.system.value > 0)
    && (if dropped then d.app.timer && d.app.system == Some(d.app.path) && EqualsSystem(d.app, d.disk, langs)
        else d.app.timer ==> d.app.path == 0)
  }

  lemma EditInPlace(d: Desk, edit: Edit, dropped: bool, langs: seq<string>)
    requires InPlace(d, dropped, langs)
    ensures var t := Next(d, Make(edit), langs);
            InPlace(t, dropped && t.app == d.app, langs) && SystemStands(d.disk, t.disk)
  {
    match edit
    case SetHidden(hidden) =>
      QueueSaveKeepsBase(d.app.(fields := d.app.fields.(hidden := hidden), mask := d.app.mask + {Hidden}));
    case Update(name, comment, exec, delay) => QueueSaveKeepsBase(Updated(d.app, name, comment, exec, delay));
    case DeleteApp =>
  }

  lemma SaveInPlace(d: Desk, writable: bool, langs: seq<string>)
    requires InPlace(d, false, langs)
    ensures var t := Next(d, Save(writable), langs);
            && InPlace(t, d.app.timer && EqualsSystem(d.app, d.disk, langs), langs) && SystemStands(d.disk, t.disk)
  {
  }

  /** No save follows a dropped copy without an edit in between. */
  predicate EditedBetween(d: Desk, acts: seq<Act>, langs: seq<string>) {
    acts != [] ==>
      var before := acts[..|acts| - 1];
      EditedBetween(d, before, langs) && (acts[|acts| - 1].Save? ==> !JustDropped(d, before, langs))
  }

  lemma {:induction false} EditedBetweenPrefix(d: Desk, acts: seq<Act>, langs: seq<string>, j: nat)
    requires EditedBetween(d, acts, langs) && j <= |acts|
    ensures EditedBetween(d, acts[..j], langs)
  {
    if j < |acts| {
      var before := acts[..|acts| - 1];
      EditedBetweenPrefix(d, before, langs, j);
      assert before[..j] == acts[..j];
    } else {
      assert acts[..j] == acts;
    }
  }

  lemma {:induction false} StandsWhileEdited(d: Desk, acts: seq<Act>, langs: seq<string>)
    requires InPlace(d, false, langs) && EditedBetween(d, acts, langs)
    ensures var t := Run(d, acts, langs);
            InPlace(t, JustDropped(d, acts, langs), langs) && SystemStands(d.disk, t.disk)
  {
    if acts != [] {
      var n := |acts| - 1;
      StandsWhileEdited(d, acts[..n], langs);
      var before := Run(d, acts[..n], langs);
      match acts[n]
      case Make(edit) => EditInPlace(before, edit, JustDropped(d, acts[..n], langs), langs);
      case Save(writable) => SaveInPlace(before, writable, langs);
    }
  }

  /** A save right after a dropped copy removes the system's. */
  lemma DroppedThenSaved(d: Desk, writable: bool, langs: seq<string>)
    requires InPlace(d, true, langs)
    ensures d.app.path in d.disk && d.app.path > 0 && d.app.path !in Next(d, Save(writable), langs).disk
  {
  }

  /**
   For an application as it was read, and any edits and saves: the system's
   copies stand all along exactly if no save follows a dropped copy without an
   edit in between.
   */
  lemma SystemStandsExactlyWhen(a: App, disk: Disk, acts: seq<Act>, langs: seq<string>)
    requires Clean(a, disk, langs) && !a.timer
    ensures (forall j | 0 <= j <= |acts| :: SystemStands(disk, Run(Desk(a, disk), acts[..j], langs).disk)) <==>
              EditedBetween(Desk(a, disk), acts, langs)
  {
    var d := Desk(a, disk);
    if EditedBetween(d, acts, langs) {
      forall j | 0 <= j <= |acts|
        ensures SystemStands(disk, Run(d, acts[..j], langs).disk)
      {
        EditedBetweenPrefix(d, acts, langs, j);
        StandsWhileEdited(d, acts[..j], langs);
      }
    } else {
      var k := FirstRepeat(d, acts, langs);
      StandsWhileEdited(d, acts[..k], langs);
      LostAfterRepeat(d, acts, k, langs);
    }
  }

  lemma LostAfterRepeat(d: Desk, acts: seq<Act>, k: nat, langs: seq<string>)
    requires k < |acts| && acts[k].Save?
    requires var before := Run(d, acts[..k], langs); InPlace(before, true, langs) && SystemStands(d.disk, before.disk)
    ensures !SystemStands(d.disk, Run(d, acts[..k + 1], langs).disk)
  {
    var before := Run(d, acts[..k], langs);
    DroppedThenSaved(before, acts[k].writable, langs);
    assert acts[..k + 1][..k] == acts[..k];
    assert Run(d, acts[..k + 1], langs) == Next(before, acts[k], langs);
    assert before.app.path in d.disk;
  }

  /** The first save that follows a dropped copy. */
  lemma {:induction false} FirstRepeat(d: Desk, acts: seq<Act>, langs: seq<string>) returns (k: nat)
    requires !EditedBetween(d, acts, langs)
    ensures k < |acts| && acts[k].Save? && JustDropped(d, acts[..k], langs) && EditedBetween(d, acts[..k], langs)
  {
    k := |acts| - 1;
    if !EditedBetween(d, acts[..k], langs) {
      var before := acts[..k];
      k := FirstRepeat(d, before, langs);
      assert before[..k] == acts[..k] && before[k] == acts[k];
    }
  }

  const MAIL: KeyFile := map[Plain(Name) := Text("Mail"), Plain(Exec) := Text("mail")]

  const MAIL_FIELDS := Fields(false, Some("Mail"), None, Some("mail"), 0, None)

  lemma MailReads()
    ensures Raw(MAIL, []) == MAIL_FIELDS && Loaded(MAIL, []) == MAIL_FIELDS
  {
    assert !IsSpace("Mail"[0]);
  }

  /** The application as it was read, with the timer running, and after its copy was dropped. */
  lemma MailStates()
    ensures var a := App(MAIL_FIELDS, {}, 1, None, Some(1), Some(1), false, false);
            var b := a.(path := 0, base := Some(1), position := Some(0), mask := {Hidden}, timer := true);
            && Read(None, 1, MAIL, []) == a
            && Apply(Apply(a, SetHidden(true)), SetHidden(false)) == b
            && Saved(b, map[1 := MAIL], true, []) == b.(path := 1, position := Some(1), mask := {}, base := None)
            && DiskAfter(b, map[1 := MAIL], true, []) == map[1 := MAIL]
  {
    MailReads();
    var disk: Disk := map[1 := MAIL];
    assert disk - {0} == disk;
  }

  /**
   An application read from a system directory is hidden and shown again before
   the timer runs out, so that its copy is dropped at once; the save on disposal
   then removes the system's file.
   */
  lemma HiddenShownAndDisposed()
    ensures var d := Desk(Read(None, 1, MAIL, []), map[1 := MAIL]);
            var acts := [Make(SetHidden(true)), Make(SetHidden(false)), Save(true), Save(true)];
            && Clean(d.app, d.disk, [])
            && Run(d, acts[..3], []).disk == map[1 := MAIL]
            && Run(d, acts, []).disk == map[]
  {
    var d := Desk(Read(None, 1, MAIL, []), map[1 := MAIL]);
    var acts := [Make(SetHidden(true)), Make(SetHidden(false)), Save(true), Save(true)];
    MailReads();
    MailStates();
    FourActs(d, acts, []);
  }

  lemma FourActs(d: Desk, acts: seq<Act>, langs: seq<string>)
    requires |acts| == 4
    ensures Run(d, acts[..3], langs) == Next(Next(Next(d, acts[0], langs), acts[1], langs), acts[2], langs)
    ensures Run(d, acts, langs) == Next(Run(d, acts[..3], langs), acts[3], langs)
  {
    assert acts[..3][..2] == acts[..2] && acts[..2][..1] == acts[..1] && acts[..1][..0] == [];
    assert Run(d, acts[..1], langs) == Next(d, acts[0], langs);
    assert Run(d, acts[..2], langs) == Next(Run(d, acts[..1], langs), acts[1], langs);
  }
}
