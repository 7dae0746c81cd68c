/** The autostart applications as objects that the preferences dialog and the file monitors update in place. */
module AutostartManager {
  import opened Wrappers
  import opened AutostartApp
  import opened AutostartView

  class Entry {
    var hidden: bool
    var name: Option<string>
    var comment: Option<string>
    var exec: Option<string>
    var delay: int
    var icon: Option<string>
    var saveMask: set<Key>
    var path: nat
    var oldSystemPath: Option<nat>
    var position: Option<nat>
    var systemPosition: Option<nat>
    var saveTimeout: bool
    var skipNextMonitorEvent: bool

    ghost function Now(): App
      reads this
    {
      App(Fields(hidden, name, comment, exec, delay, icon), saveMask, path, oldSystemPath,
          position, systemPosition, saveTimeout, skipNextMonitorEvent)
    }

    /** An application that was not known before. */
    constructor (x: nat, kf: KeyFile, langs: seq<string>)
      ensures Now() == Read(None, x, kf, langs)
    {
      var f := Loaded(kf, langs);
      hidden, name, comment, exec, delay, icon := f.hidden, f.name, f.comment, f.exec, f.delay, f.icon;
      saveMask, path, oldSystemPath := {}, x, None;
      position := Some(x);
      systemPosition := if x > 0 then Some(x) else None;
      saveTimeout, skipNextMonitorEvent := false, false;
    }

    method LoadFields(kf: KeyFile, langs: seq<string>)
      modifies this`hidden, this`name, this`comment, this`exec, this`delay, this`icon
      ensures Now() == old(Now()).(fields := Loaded(kf, langs))
    {
      hidden := GetFlag(kf, Hidden);
      name := GetLocale(kf, Name, langs);
      exec := GetText(kf, Plain(Exec));
      comment := GetLocale(kf, Comment, langs);
      delay := GetNumber(kf, Delay);
      if IsBlank(name) {
        name := exec;
      }
      icon := GetLocale(kf, Icon, langs);
    }

    /** A file of the same name has been read, created or changed in directory `x`. */
    method ReadAgain(x: nat, kf: KeyFile, langs: seq<string>)
      modifies this
      ensures Now() == Read(Some(old(Now())), x, kf, langs)
    {
      if position == Some(x) {
        if skipNextMonitorEvent {
          skipNextMonitorEvent := false;
          return;
        }
      }
      if (position.Some? && position.value < x) || saveTimeout {
        if systemPosition.None? || x <= systemPosition.value {
          systemPosition := Some(x);
        }
        return;
      }
      path := x;
      LoadFields(kf, langs);
      if x > 0 {
        systemPosition := Some(x);
      }
      position := Some(x);
      saveTimeout, oldSystemPath, skipNextMonitorEvent := false, None, false;
    }

    /** The user's copy is gone: the application is read again from the system's. */
    method FallBack(disk: Disk, langs: seq<string>)
      requires systemPosition.Some?
      modifies this
      ensures var a := old(Now()).(position := None);
              Now() == if a.system.value in disk then Read(Some(a), a.system.value, disk[a.system.value], langs) else a
    {
      position := None;
      if systemPosition.value in disk {
        ReadAgain(systemPosition.value, disk[systemPosition.value], langs);
      }
    }

    method QueueSave()
      modifies this`position, this`oldSystemPath, this`path, this`saveTimeout
      ensures Now() == AutostartApp.QueueSave(old(Now()))
    {
      saveTimeout := false;
      if position != Some(0) {
        position := Some(0);
        if oldSystemPath.None? {
          oldSystemPath := Some(path);
        }
        path := 0;
      }
      saveTimeout := true;
    }

    method ChangeHidden(value: bool)
      modifies this
      ensures Now() == Apply(old(Now()), SetHidden(value))
    {
      if value == hidden {
        return;
      }
      hidden := value;
      saveMask := saveMask + {Hidden};
      QueueSave();
    }

    method ChangeTexts(newName: Option<string>, newComment: Option<string>)
      modifies this`name, this`comment, this`saveMask
      ensures name == if SameText(newName, old(name)) then old(name) else newName
      ensures comment == if SameText(newComment, old(comment)) then old(comment) else newComment
      ensures saveMask == old(saveMask) + TextChanges(old(Now()).fields, newName, newComment)
    {
      if !SameText(newName, name) {
        name := newName;
        saveMask := saveMask + {Name};
      }
      if !SameText(newComment, comment) {
        comment := newComment;
        saveMask := saveMask + {Comment};
      }
    }

    method ChangeRest(newExec: string, newDelay: int)
      modifies this`exec, this`delay, this`saveMask
      ensures exec == if SameText(Some(newExec), old(exec)) then old(exec) else Some(newExec)
      ensures delay == newDelay
      ensures saveMask == old(saveMask) + OtherChanges(old(Now()).fields, newExec, newDelay)
    {
      if !SameText(Some(newExec), exec) {
        exec := Some(newExec);
        saveMask := saveMask + {Exec};
      }
      if newDelay != delay {
        delay := newDelay;
        saveMask := saveMask + {Delay};
      }
    }

    method Change(newName: Option<string>, newComment: Option<string>, newExec: string, newDelay: int)
      modifies this
      ensures Now() == Apply(old(Now()), Update(newName, newComment, newExec, newDelay))
    {
      var changed := Changes(Fields(hidden, name, comment, exec, delay, icon), newName, newComment, newExec, newDelay);
      if changed {
        ChangeTexts(newName, newComment);
        ChangeRest(newExec, newDelay);
        QueueSave();
      }
    }

    /** Says whether the application is to be forgotten: its only file was the user's, and is removed. */
    method Delete(disk: Disk) returns (forget: bool, after: Disk)
      modifies this
      ensures Now() == Apply(old(Now()), DeleteApp)
      ensures forget == UserOnly(old(Now()))
      ensures after == if forget then disk - {old(path)} else disk
    {
      forget := position == Some(0) && systemPosition.None?;
      after := disk;
      if forget {
        saveTimeout := false;
        after := disk - {path};
        hidden := true;
        saveMask := saveMask + {Hidden};
      } else {
        hidden := true;
        saveMask := saveMask + {Hidden};
        QueueSave();
      }
    }

    method UserEqualSystem(disk: Disk, langs: seq<string>) returns (equal: bool)
      ensures equal == EqualsSystem(Now(), disk, langs)
    {
      if systemPosition.None? || systemPosition.value !in disk {
        return false;
      }
      var kf := disk[systemPosition.value];
      if GetFlag(kf, Hidden) != hidden {
        return false;
      }
      if !SameText(GetLocale(kf, Name, langs), name) {
        return false;
      }
      if !SameText(GetLocale(kf, Comment, langs), comment) {
        return false;
      }
      if !SameText(GetText(kf, Plain(Exec)), exec) {
        return false;
      }
      if !SameText(GetLocale(kf, Icon, langs), icon) {
        return false;
      }
      equal := GetNumber(kf, Delay) == delay;
    }

    method Save(disk: Disk, writable: bool, langs: seq<string>) returns (after: Disk)
      modifies this
      ensures Now() == Saved(old(Now()), disk, writable, langs)
      ensures after == DiskAfter(old(Now()), disk, writable, langs)
    {
      var equal := UserEqualSystem(disk, langs);
      if equal {
        after := disk - {path};
        path := systemPosition.value;
        position := systemPosition;
        saveMask, oldSystemPath := {}, None;
        return;
      }
      var use := if oldSystemPath.Some? then oldSystemPath.value else path;
      after := disk;
      if writable {
        var kf := WriteKeys(if use in disk then disk[use] else POPULATED, langs);
        after := disk[path := kf];
        skipNextMonitorEvent := true;
        saveMask, oldSystemPath := {}, None;
      }
      saveTimeout := false;
    }

    method WriteKeys(base: KeyFile, langs: seq<string>) returns (kf: KeyFile)
      ensures kf == Written(base, Now().fields, saveMask, langs)
    {
      kf := base;
      if Hidden in saveMask {
        kf := kf[Plain(Hidden) := Flag(hidden)];
      }
      if Name in saveMask {
        kf := SetLocaleString(kf, Name, langs, name);
      }
      if Comment in saveMask {
        kf := SetLocaleString(kf, Comment, langs, comment);
      }
      if Exec in saveMask {
        kf := kf[Plain(Exec) := Text(TextOrEmpty(exec))];
      }
      if Delay in saveMask {
        kf := kf[Plain(Delay) := Number(delay)];
      }
    }

    /** Looks for the first language without an encoding, and sets that variant. */
    static method SetLocaleString(kf: KeyFile, key: Key, langs: seq<string>, value: Option<string>) returns (result: KeyFile)
      ensures result == SetLocale(kf, key, langs, value)
    {
      var rest := langs;
      while rest != [] && '.' in rest[0]
        invariant TargetSlot(key, langs) == TargetSlot(key, rest)
      {
        rest := rest[1..];
      }
      var slot := if rest == [] then Plain(key) else Local(key, rest[0]);
      result := EnsureC(kf[slot := Text(TextOrEmpty(value))], key, langs);
    }
  }

  class Manager {
    var apps: map<string, Entry>
    const dirs: seq<nat>

    /** No object stands for two names. */
    ghost predicate Valid()
      reads this
    {
      forall m, n | m in apps && n in apps && apps[m] == apps[n] :: m == n
    }

    ghost function Now(): View
      reads this, apps.Values
    {
      map n | n in apps :: apps[n].Now()
    }

    constructor (dirs: seq<nat>)
      ensures Valid() && Now() == map[] && this.dirs == dirs && apps == map[]
    {
      this.dirs := dirs;
      apps := map[];
    }

    /** A desktop file turned up, while a directory was read or later, or it changed. */
    method OnFileFound(x: nat, name: string, kf: KeyFile, langs: seq<string>)
      requires Valid()
      modifies this`apps, apps.Values
      ensures Valid() && Now() == Appear(old(Now()), x, name, kf, langs)
      ensures forall n | n in apps :: (n in old(apps) && apps[n] == old(apps)[n]) || fresh(apps[n])
    {
      if name in apps {
        apps[name].ReadAgain(x, kf, langs);
      } else {
        AddNew(x, name, kf, langs);
      }
    }

    method AddNew(x: nat, name: string, kf: KeyFile, langs: seq<string>)
      requires Valid() && name !in apps
      modifies this`apps
      ensures Valid() && name in apps && fresh(apps[name]) && apps == old(apps)[name := apps[name]]
      ensures Now() == Appear(old(Now()), x, name, kf, langs)
    {
      var app := new Entry(x, kf, langs);
      apps := apps[name := app];
    }

    method FillFromDir(x: nat, names: seq<string>, tree: Tree, langs: seq<string>)
      requires Valid() && forall k | 0 <= k < |names| :: names[k] in tree && x in tree[names[k]]
      modifies this`apps, apps.Values
      ensures Valid() && Now() == AppearAll(old(Now()), x, names, tree, langs)
      ensures forall n | n in apps :: (n in old(apps) && apps[n] == old(apps)[n]) || fresh(apps[n])
    {
      for k := 0 to |names|
        invariant Valid() && Now() == AppearAll(old(Now()), x, names[..k], tree, langs)
        invariant forall n | n in apps :: (n in old(apps) && apps[n] == old(apps)[n]) || fresh(apps[n])
      {
        assert names[..k + 1][..k] == names[..k];
        OnFileFound(x, names[k], tree[names[k]][x], langs);
      }
      assert names[..|names|] == names;
    }

    /** The topmost directory below `x` with a copy: the directories are not in order, so all are looked at. */
    method FindDirWithBasename(copies: set<nat>, x: nat) returns (found: Option<nat>)
      ensures found == FindBelow(dirs, copies, x)
    {
      found := None;
      for i := 0 to |dirs|
        invariant found.Some? ==> found.value in dirs && found.value in copies && found.value > x
        invariant forall k | 0 <= k < i && dirs[k] in copies && dirs[k] > x :: found.Some? && found.value <= dirs[k]
      {
        if dirs[i] > x && dirs[i] in copies {
          found := if found.None? || dirs[i] < found.value then Some(dirs[i]) else found;
        }
      }
    }

    method OnFileDeleted(x: nat, name: string, tree: Tree, langs: seq<string>)
      requires Valid() && name in tree
      modifies this`apps, apps.Values
      ensures Valid() && Now() == Vanish(old(Now()), x, name, tree, dirs, langs)
    {
      if name !in apps {
        return;
      }
      var app := apps[name];
      var disk := tree[name] - {x};
      if app.systemPosition.Some? && app.systemPosition.value < x {
        assert Now() == old(Now())[name := old(Now())[name]];
        return;
      }
      if app.position.None? || x < app.position.value {
        assert Now() == old(Now())[name := old(Now())[name]];
        return;
      }
      if app.position == Some(x) && (app.systemPosition == Some(x) || app.systemPosition.None?) {
        apps := apps - {name};
        return;
      }
      if app.systemPosition == Some(x) {
        app.systemPosition := FindDirWithBasename(disk.Keys, x);
      } else if app.position == Some(x) {
        app.FallBack(disk, langs);
      }
      assert Now() == old(Now())[name := app.Now()];
    }
  }
}
