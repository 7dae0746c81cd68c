/**
 An autostart application in the preferences dialog: what is read from its
 desktop file, edited in memory, and written back later, into the user's own
 directory.
 */
module AutostartApp {
  import opened Wrappers

  // ----- desktop files -----

  datatype Key = Hidden | Name | Comment | Exec | Delay | Icon | Other(key: string)

  /** A key, or the variant of a key for one language. */
  datatype Slot = Plain(key: Key) | Local(key: Key, lang: string)

  datatype Value = Text(text: string) | Flag(flag: bool) | Number(number: int)

  type KeyFile = map<Slot, Value>

  /** The copies of one desktop file, by directory; 0 is the user's directory. */
  type Disk = map<nat, KeyFile>

  function GetText(kf: KeyFile, slot: Slot): Option<string> {
    if slot in kf && kf[slot].Text? then Some(kf[slot].text) else None
  }

  function GetFlag(kf: KeyFile, key: Key): bool {
    Plain(key) in kf && kf[Plain(key)].Flag? && kf[Plain(key)].flag
  }

  function GetNumber(kf: KeyFile, key: Key): int {
    if Plain(key) in kf && kf[Plain(key)].Number? then kf[Plain(key)].number else 0
  }

  /** The variant for the first language that has one, else the plain key. */
  function GetLocale(kf: KeyFile, key: Key, langs: seq<string>): Option<string> {
    if langs == [] then GetText(kf, Plain(key))
    else if GetText(kf, Local(key, langs[0])).Some? then GetText(kf, Local(key, langs[0]))
    else GetLocale(kf, key, langs[1..])
  }

  /** The slot that an edit goes to: the first language without an encoding. */
  function TargetSlot(key: Key, langs: seq<string>): Slot {
    if langs == [] then Plain(key)
    else if '.' !in langs[0] then Local(key, langs[0])
    else TargetSlot(key, langs[1..])
  }

  function TextOrEmpty(s: Option<string>): string {
    if s.Some? then s.value else ""
  }

  /** The plain key is filled in as well, unless it says something already. */
  function EnsureC(kf: KeyFile, key: Key, langs: seq<string>): KeyFile {
    var value := GetLocale(kf, key, langs);
    if TextOrEmpty(GetText(kf, Plain(key))) == "" && value.Some? then kf[Plain(key) := Text(value.value)] else kf
  }

  function SetLocale(kf: KeyFile, key: Key, langs: seq<string>, value: Option<string>): KeyFile {
    EnsureC(kf[TargetSlot(key, langs) := Text(TextOrEmpty(value))], key, langs)
  }

  // ----- the application in memory -----

  datatype Fields = Fields(
    hidden: bool,
    name: Option<string>,
    comment: Option<string>,
    exec: Option<string>,
    delay: int,
    icon: Option<string>)

  predicate IsSpace(c: char) {
    c == ' ' || c == '\t' || c == '\n' || c == '\r' || c as int == 11 || c as int == 12
  }

  predicate IsBlank(s: Option<string>) {
    s.None? || forall k | 0 <= k < |s.value| :: IsSpace(s.value[k])
  }

  /** What a desktop file says, as it stands. */
  function Raw(kf: KeyFile, langs: seq<string>): Fields {
    Fields(GetFlag(kf, Hidden), GetLocale(kf, Name, langs), GetLocale(kf, Comment, langs),
           GetText(kf, Plain(Exec)), GetNumber(kf, Delay), GetLocale(kf, Icon, langs))
  }

  /** A blank name is replaced by the command. */
  function Loaded(kf: KeyFile, langs: seq<string>): Fields {
    var raw := Raw(kf, langs);
    if IsBlank(raw.name) then raw.(name := raw.exec) else raw
  }

  /** Whatever the file says is loaded, but for a blank name, in whose place the command is shown. */
  lemma LoadedShowsName(kf: KeyFile, langs: seq<string>)
    ensures var raw, f := Raw(kf, langs), Loaded(kf, langs);
            && f == raw.(name := f.name)
            && (!IsBlank(raw.name) ==> f.name == raw.name)
            && (IsBlank(raw.name) ==> f.name == GetText(kf, Plain(Exec)))
            && (IsBlank(f.name) <==> IsBlank(raw.name) && IsBlank(GetText(kf, Plain(Exec))))
  {
  }

  /** A missing text and an empty one count as the same. */
  predicate SameText(a: Option<string>, b: Option<string>) {
    TextOrEmpty(a) == TextOrEmpty(b)
  }

  predicate SameFields(a: Fields, b: Fields) {
    && a.hidden == b.hidden && a.delay == b.delay
    && SameText(a.name, b.name) && SameText(a.comment, b.comment) && SameText(a.exec, b.exec) && SameText(a.icon, b.icon)
  }

  /** The fields with every missing text written as an empty one. */
  function Filled(f: Fields): Fields {
    f.(name := Some(TextOrEmpty(f.name)), comment := Some(TextOrEmpty(f.comment)),
       exec := Some(TextOrEmpty(f.exec)), icon := Some(TextOrEmpty(f.icon)))
  }

  /** Two records are the same exactly when nothing but that can tell them apart. */
  lemma SameFieldsExactlyWhen(a: Fields, b: Fields)
    ensures SameFields(a, b) <==> Filled(a) == Filled(b)
  {
  }

  /**
   `position` is the directory the application was read from, `system` the first
   system directory that holds a copy (none of them is the largest number).
   `base` is the file that the next save starts from, if it is not `path`.
   */
  datatype App = App(
    fields: Fields,
    mask: set<Key>,
    path: nat,
    base: Option<nat>,
    position: Option<nat>,
    system: Option<nat>,
    timer: bool,
    skip: bool)

  function LowerOf(x: nat, system: Option<nat>): Option<nat> {
    if system.Some? && system.value < x then system else Some(x)
  }

  predicate Below(position: Option<nat>, x: nat) {
    position.Some? && position.value < x
  }

  /** A file of directory `x` is read: into a new application, or into the one of that name, unless it does not matter. */
  function Read(known: Option<App>, x: nat, kf: KeyFile, langs: seq<string>): App {
    if known.None? then
      App(Loaded(kf, langs), {}, x, None, Some(x), if x > 0 then Some(x) else None, false, false)
    else
      var a := known.value;
      if a.position == Some(x) && a.skip then a.(skip := false)
      else if Below(a.position, x) || a.timer then a.(system := LowerOf(x, a.system))
      else a.(fields := Loaded(kf, langs), path := x, base := None, position := Some(x),
              system := if x > 0 then Some(x) else a.system, timer := false, skip := false)
  }

  // ----- edits -----

  function QueueSave(a: App): App {
    if a.position == Some(0) then a.(timer := true)
    else a.(timer := true, position := Some(0), path := 0, base := if a.base.Some? then a.base else Some(a.path))
  }

  datatype Edit =
    | SetHidden(hidden: bool)
    | Update(name: Option<string>, comment: Option<string>, exec: string, delay: int)
    | DeleteApp

  function TextChanges(f: Fields, name: Option<string>, comment: Option<string>): set<Key> {
    (if SameText(name, f.name) then {} else {Name}) + (if SameText(comment, f.comment) then {} else {Comment})
  }

  function OtherChanges(f: Fields, exec: string, delay: int): set<Key> {
    (if SameText(Some(exec), f.exec) then {} else {Exec}) + (if delay == f.delay then {} else {Delay})
  }

  predicate Changes(f: Fields, name: Option<string>, comment: Option<string>, exec: string, delay: int) {
    !SameText(name, f.name) || !SameText(comment, f.comment) || !SameText(Some(exec), f.exec) || delay != f.delay
  }

  function Updated(a: App, name: Option<string>, comment: Option<string>, exec: string, delay: int): App {
    var f := a.fields;
    a.(fields := f.(name := if SameText(name, f.name) then f.name else name,
                    comment := if SameText(comment, f.comment) then f.comment else comment,
                    exec := if SameText(Some(exec), f.exec) then f.exec else Some(exec),
                    delay := delay),
       mask := a.mask + TextChanges(f, name, comment) + OtherChanges(f, exec, delay))
  }

  /** The file is in the user's directory and nowhere else. */
  predicate UserOnly(a: App) {
    a.position == Some(0) && a.system.None?
  }

  function Apply(a: App, e: Edit): App {
    match e
    case SetHidden(hidden) =>
      if hidden == a.fields.hidden then a
      else QueueSave(a.(fields := a.fields.(hidden := hidden), mask := a.mask + {Hidden}))
    case Update(name, comment, exec, delay) =>
      if Changes(a.fields, name, comment, exec, delay) then QueueSave(Updated(a, name, comment, exec, delay)) else a
    case DeleteApp =>
      var b := a.(fields := a.fields.(hidden := true), mask := a.mask + {Hidden});
      if UserOnly(a) then b.(timer := false) else QueueSave(b)
  }

  // ----- saving -----

  /** The system's own copy says the same, so that the user's is not needed. */
  predicate EqualsSystem(a: App, disk: Disk, langs: seq<string>) {
    a.system.Some? && a.system.value in disk && SameFields(Raw(disk[a.system.value], langs), a.fields)
  }

  function Base(a: App): nat {
    if a.base.Some? then a.base.value else a.path
  }

  /** The base file with the edited keys set. */
  function Written(kf: KeyFile, f: Fields, mask: set<Key>, langs: seq<string>): KeyFile {
    var kf1 := if Hidden in mask then kf[Plain(Hidden) := Flag(f.hidden)] else kf;
    var kf2 := if Name in mask then SetLocale(kf1, Name, langs, f.name) else kf1;
    var kf3 := if Comment in mask then SetLocale(kf2, Comment, langs, f.comment) else kf2;
    var kf4 := if Exec in mask then kf3[Plain(Exec) := Text(TextOrEmpty(f.exec))] else kf3;
    if Delay in mask then kf4[Plain(Delay) := Number(f.delay)] else kf4
  }

  const POPULATED: KeyFile := map[Plain(Other("Type")) := Text("Application"), Plain(Exec) := Text("/bin/false")]

  function Saved(a: App, disk: Disk, writable: bool, langs: seq<string>): App {
    if EqualsSystem(a, disk, langs) then a.(path := a.system.value, position := a.system, mask := {}, base := None)
    else if writable then a.(skip := true, mask := {}, base := None, timer := false)
    else a.(timer := false)
  }

  function DiskAfter(a: App, disk: Disk, writable: bool, langs: seq<string>): Disk {
    if EqualsSystem(a, disk, langs) then disk - {a.path}
    else if writable then
      disk[a.path := Written(if Base(a) in disk then disk[Base(a)] else POPULATED, a.fields, a.mask, langs)]
    else disk
  }

  // ----- memory and file agree -----

  /** Whatever has not been edited is as the base file has it. */
  predicate Agrees(a: App, disk: Disk, langs: seq<string>) {
    Base(a) in disk &&
      var f := Loaded(disk[Base(a)], langs);
      && (Hidden in a.mask || a.fields.hidden == f.hidden)
      && (Name in a.mask || a.fields.name == f.name)
      && (Comment in a.mask || a.fields.comment == f.comment)
      && (Exec in a.mask || a.fields.exec == f.exec)
      && (Delay in a.mask || a.fields.delay == f.delay)
      && a.fields.icon == f.icon
  }

  function ApplyAll(a: App, es: seq<Edit>): App {
    if es == [] then a else Apply(ApplyAll(a, es[..|es| - 1]), es[|es| - 1])
  }

  lemma QueueSaveKeepsBase(a: App)
    ensures Base(QueueSave(a)) == Base(a) && QueueSave(a).fields == a.fields && QueueSave(a).mask == a.mask
    ensures QueueSave(a).position == Some(0) && QueueSave(a).system == a.system
  {
  }

  lemma EditAgrees(a: App, e: Edit, disk: Disk, langs: seq<string>)
    requires Agrees(a, disk, langs)
    ensures Agrees(Apply(a, e), disk, langs) && a.mask <= Apply(a, e).mask
    ensures Apply(a, e).system == a.system && Apply(a, e).fields.icon == a.fields.icon
  {
    match e
    case SetHidden(hidden) => QueueSaveKeepsBase(a.(fields := a.fields.(hidden := hidden), mask := a.mask + {Hidden}));
    case Update(name, comment, exec, delay) => QueueSaveKeepsBase(Updated(a, name, comment, exec, delay));
    case DeleteApp => QueueSaveKeepsBase(a.(fields := a.fields.(hidden := true), mask := a.mask + {Hidden}));
  }

  /** An edit has the effect asked for, and no other. */
  lemma EditTakesEffect(a: App, e: Edit)
    ensures var f, g := a.fields, Apply(a, e).fields;
            match e
            case SetHidden(hidden) => g == f.(hidden := hidden)
            case Update(name, comment, exec, delay) =>
              && SameText(g.name, name) && SameText(g.comment, comment) && SameText(g.exec, Some(exec)) && g.delay == delay
              && g.hidden == f.hidden && g.icon == f.icon
            case DeleteApp => g == f.(hidden := true)
    ensures if e.DeleteApp? && UserOnly(a) then !Apply(a, e).timer else Apply(a, e).timer || Apply(a, e) == a
  {
  }

  /** Any number of edits before the save leaves every unedited key as the base file has it. */
  lemma {:induction false} EditsAgree(a: App, es: seq<Edit>, disk: Disk, langs: seq<string>)
    requires Agrees(a, disk, langs)
    ensures Agrees(ApplyAll(a, es), disk, langs)
  {
    if es != [] {
      EditsAgree(a, es[..|es| - 1], disk, langs);
      EditAgrees(ApplyAll(a, es[..|es| - 1]), es[|es| - 1], disk, langs);
    }
  }

  // ----- what is written -----

  /** The two files say the same about this key, in every language. */
  ghost predicate SameKey(a: KeyFile, b: KeyFile, key: Key) {
    forall slot: Slot | slot.key == key :: (slot in a <==> slot in b) && (slot in a ==> a[slot] == b[slot])
  }

  lemma {:induction false} SameKeyReads(a: KeyFile, b: KeyFile, key: Key, langs: seq<string>)
    requires SameKey(a, b, key)
    ensures GetLocale(a, key, langs) == GetLocale(b, key, langs)
    ensures GetText(a, Plain(key)) == GetText(b, Plain(key))
    ensures GetFlag(a, key) == GetFlag(b, key) && GetNumber(a, key) == GetNumber(b, key)
  {
    assert Plain(key).key == key;
    if langs != [] {
      assert Local(key, langs[0]).key == key;
      SameKeyReads(a, b, key, langs[1..]);
    }
  }

  lemma {:induction false} TargetsKey(key: Key, langs: seq<string>)
    ensures TargetSlot(key, langs).key == key
  {
    if langs != [] {
      TargetsKey(key, langs[1..]);
    }
  }

  lemma SetLocaleElsewhere(kf: KeyFile, key: Key, langs: seq<string>, value: Option<string>, other: Key)
    requires other != key
    ensures SameKey(SetLocale(kf, key, langs, value), kf, other)
  {
    TargetsKey(key, langs);
  }

  /** Keys that were not edited are left as they were, whatever their kind. */
  lemma WrittenElsewhere(kf: KeyFile, f: Fields, mask: set<Key>, langs: seq<string>, other: Key)
    requires other !in mask
    ensures SameKey(Written(kf, f, mask, langs), kf, other)
  {
    var kf1 := if Hidden in mask then kf[Plain(Hidden) := Flag(f.hidden)] else kf;
    var kf2 := if Name in mask then SetLocale(kf1, Name, langs, f.name) else kf1;
    if Name in mask {
      SetLocaleElsewhere(kf1, Name, langs, f.name, other);
    }
    if Comment in mask {
      SetLocaleElsewhere(kf2, Comment, langs, f.comment, other);
    }
  }

  /** A variant for a language that is looked at before the one that edits go to. */
  function Shadow(kf: KeyFile, key: Key, langs: seq<string>): Option<string> {
    if langs == [] || '.' !in langs[0] then None
    else if GetText(kf, Local(key, langs[0])).Some? then GetText(kf, Local(key, langs[0]))
    else Shadow(kf, key, langs[1..])
  }

  lemma {:induction false} SetThenGet(kf: KeyFile, key: Key, langs: seq<string>, value: string)
    ensures GetLocale(kf[TargetSlot(key, langs) := Text(value)], key, langs)
         == if Shadow(kf, key, langs).Some? then Shadow(kf, key, langs) else Some(value)
  {
    if langs != [] && '.' in langs[0] {
      SetThenGet(kf, key, langs[1..], value);
      NotTargeted(key, langs[0], langs[1..]);
    }
  }

  lemma {:induction false} NotTargeted(key: Key, lang: string, langs: seq<string>)
    requires '.' in lang
    ensures TargetSlot(key, langs) != Local(key, lang)
  {
    if langs != [] {
      NotTargeted(key, lang, langs[1..]);
    }
  }

  lemma {:induction false} EnsureCReads(kf: KeyFile, key: Key, langs: seq<string>, plain: string)
    requires GetLocale(kf, key, langs) == Some(plain)
    ensures GetLocale(kf[Plain(key) := Text(plain)], key, langs) == Some(plain)
  {
    if langs != [] && GetText(kf, Local(key, langs[0])).None? {
      EnsureCReads(kf, key, langs[1..], plain);
    }
  }

  /** What is read after an edit: the new text, unless a variant stands in front of it. */
  lemma SetLocaleReads(kf: KeyFile, key: Key, langs: seq<string>, value: Option<string>)
    ensures GetLocale(SetLocale(kf, key, langs, value), key, langs)
         == if Shadow(kf, key, langs).Some? then Shadow(kf, key, langs) else Some(TextOrEmpty(value))
  {
    var t := kf[TargetSlot(key, langs) := Text(TextOrEmpty(value))];
    SetThenGet(kf, key, langs, TextOrEmpty(value));
    EnsureCReads(t, key, langs, GetLocale(t, key, langs).value);
  }

  /** Other languages get something to read as well: the plain key is never left empty beside a text, nor overwritten. */
  lemma PlainFilled(kf: KeyFile, key: Key, langs: seq<string>, value: Option<string>)
    ensures var t := SetLocale(kf, key, langs, value);
            && (TextOrEmpty(GetText(t, Plain(key))) == "" ==> TextOrEmpty(GetLocale(t, key, langs)) == "")
            && (TextOrEmpty(GetText(kf, Plain(key))) != "" && TargetSlot(key, langs) != Plain(key) ==>
                  GetText(t, Plain(key)) == GetText(kf, Plain(key)))
  {
    var u := kf[TargetSlot(key, langs) := Text(TextOrEmpty(value))];
    SetThenGet(kf, key, langs, TextOrEmpty(value));
    EnsureCReads(u, key, langs, GetLocale(u, key, langs).value);
  }

  lemma {:induction false} SameKeyShadow(a: KeyFile, b: KeyFile, key: Key, langs: seq<string>)
    requires SameKey(a, b, key)
    ensures Shadow(a, key, langs) == Shadow(b, key, langs)
  {
    if langs != [] {
      assert Local(key, langs[0]).key == key;
      SameKeyShadow(a, b, key, langs[1..]);
    }
  }

  function ReadBack(kf: KeyFile, key: Key, langs: seq<string>, value: Option<string>): Option<string> {
    if Shadow(kf, key, langs).Some? then Shadow(kf, key, langs) else Some(TextOrEmpty(value))
  }

  lemma WrittenName(kf: KeyFile, f: Fields, mask: set<Key>, langs: seq<string>)
    ensures GetLocale(Written(kf, f, mask, langs), Name, langs)
         == if Name in mask then ReadBack(kf, Name, langs, f.name) else GetLocale(kf, Name, langs)
  {
    if Name in mask {
      var kf1 := if Hidden in mask then kf[Plain(Hidden) := Flag(f.hidden)] else kf;
      var kf2 := SetLocale(kf1, Name, langs, f.name);
      SetLocaleReads(kf1, Name, langs, f.name);
      SameKeyShadow(kf1, kf, Name, langs);
      SetLocaleElsewhere(kf2, Comment, langs, f.comment, Name);
      SameKeyReads(Written(kf, f, mask, langs), kf2, Name, langs);
    } else {
      WrittenElsewhere(kf, f, mask, langs, Name);
      SameKeyReads(Written(kf, f, mask, langs), kf, Name, langs);
    }
  }

  lemma WrittenComment(kf: KeyFile, f: Fields, mask: set<Key>, langs: seq<string>)
    ensures GetLocale(Written(kf, f, mask, langs), Comment, langs)
         == if Comment in mask then ReadBack(kf, Comment, langs, f.comment) else GetLocale(kf, Comment, langs)
  {
    if Comment in mask {
      var kf1 := if Hidden in mask then kf[Plain(Hidden) := Flag(f.hidden)] else kf;
      var kf2 := if Name in mask then SetLocale(kf1, Name, langs, f.name) else kf1;
      var kf3 := SetLocale(kf2, Comment, langs, f.comment);
      SetLocaleReads(kf2, Comment, langs, f.comment);
      SetLocaleElsewhere(kf1, Name, langs, f.name, Comment);
      SameKeyShadow(kf2, kf, Comment, langs);
      SameKeyReads(Written(kf, f, mask, langs), kf3, Comment, langs);
    } else {
      WrittenElsewhere(kf, f, mask, langs, Comment);
      SameKeyReads(Written(kf, f, mask, langs), kf, Comment, langs);
    }
  }

  lemma WrittenHidden(kf: KeyFile, f: Fields, mask: set<Key>, langs: seq<string>)
    ensures GetFlag(Written(kf, f, mask, langs), Hidden) == if Hidden in mask then f.hidden else GetFlag(kf, Hidden)
  {
    if Hidden in mask {
      var kf1 := kf[Plain(Hidden) := Flag(f.hidden)];
      var kf2 := if Name in mask then SetLocale(kf1, Name, langs, f.name) else kf1;
      SetLocaleElsewhere(kf1, Name, langs, f.name, Hidden);
      SetLocaleElsewhere(kf2, Comment, langs, f.comment, Hidden);
      assert Plain(Hidden).key == Hidden;
    } else {
      WrittenElsewhere(kf, f, mask, langs, Hidden);
      SameKeyReads(Written(kf, f, mask, langs), kf, Hidden, langs);
    }
  }

  lemma WrittenExecAndDelay(kf: KeyFile, f: Fields, mask: set<Key>, langs: seq<string>)
    ensures var t := Written(kf, f, mask, langs);
            && GetText(t, Plain(Exec)) == (if Exec in mask then Some(TextOrEmpty(f.exec)) else GetText(kf, Plain(Exec)))
            && GetNumber(t, Delay) == (if Delay in mask then f.delay else GetNumber(kf, Delay))
  {
    if Exec !in mask {
      WrittenElsewhere(kf, f, mask, langs, Exec);
      SameKeyReads(Written(kf, f, mask, langs), kf, Exec, langs);
    }
    if Delay !in mask {
      WrittenElsewhere(kf, f, mask, langs, Delay);
      SameKeyReads(Written(kf, f, mask, langs), kf, Delay, langs);
    }
  }

  lemma WrittenRaw(kf: KeyFile, f: Fields, mask: set<Key>, langs: seq<string>)
    requires Icon !in mask
    ensures Raw(Written(kf, f, mask, langs), langs) == Fields(
              if Hidden in mask then f.hidden else GetFlag(kf, Hidden),
              if Name in mask then ReadBack(kf, Name, langs, f.name) else GetLocale(kf, Name, langs),
              if Comment in mask then ReadBack(kf, Comment, langs, f.comment) else GetLocale(kf, Comment, langs),
              if Exec in mask then Some(TextOrEmpty(f.exec)) else GetText(kf, Plain(Exec)),
              if Delay in mask then f.delay else GetNumber(kf, Delay),
              GetLocale(kf, Icon, langs))
  {
    WrittenName(kf, f, mask, langs);
    WrittenComment(kf, f, mask, langs);
    WrittenHidden(kf, f, mask, langs);
    WrittenExecAndDelay(kf, f, mask, langs);
    WrittenElsewhere(kf, f, mask, langs, Icon);
    SameKeyReads(Written(kf, f, mask, langs), kf, Icon, langs);
  }

  // ----- the whole round trip -----

  /** No variant of this key stands in front of the one that was written, unless it says the same. */
  predicate Unshadowed(kf: KeyFile, key: Key, langs: seq<string>, value: Option<string>) {
    Shadow(kf, key, langs).None? || SameText(Shadow(kf, key, langs), value)
  }

  /** The file has a name, and no name in it is blank. */
  ghost predicate IsNamed(kf: KeyFile, langs: seq<string>) {
    && GetLocale(kf, Name, langs).Some?
    && forall slot: Slot | slot.key == Name && GetText(kf, slot).Some? :: !IsBlank(GetText(kf, slot))
  }

  lemma {:induction false} NamedReads(kf: KeyFile, langs: seq<string>)
    requires forall slot: Slot | slot.key == Name && GetText(kf, slot).Some? :: !IsBlank(GetText(kf, slot))
    ensures GetLocale(kf, Name, langs).Some? ==> !IsBlank(GetLocale(kf, Name, langs))
    ensures Shadow(kf, Name, langs).Some? ==> !IsBlank(Shadow(kf, Name, langs))
  {
    assert Plain(Name).key == Name;
    if langs != [] {
      assert Local(Name, langs[0]).key == Name;
      NamedReads(kf, langs[1..]);
    }
  }

  /** Only the mutable keys are ever edited. */
  predicate Editable(mask: set<Key>) {
    mask <= {Hidden, Name, Comment, Exec, Delay}
  }

  /**
   Reading a saved file gives back what was in memory exactly when no variant
   for a language with an encoding hides an edited name or comment.
   */
  lemma ReadsBackExactlyWhen(a: App, disk: Disk, langs: seq<string>)
    requires Agrees(a, disk, langs) && Editable(a.mask) && !EqualsSystem(a, disk, langs)
    requires IsNamed(disk[Base(a)], langs) && !IsBlank(a.fields.name)
    ensures a.path in DiskAfter(a, disk, true, langs)
    ensures SameFields(Loaded(DiskAfter(a, disk, true, langs)[a.path], langs), a.fields) <==>
              && (Name in a.mask ==> Unshadowed(disk[Base(a)], Name, langs, a.fields.name))
              && (Comment in a.mask ==> Unshadowed(disk[Base(a)], Comment, langs, a.fields.comment))
  {
    WrittenRaw(disk[Base(a)], a.fields, a.mask, langs);
    NamedReads(disk[Base(a)], langs);
    BlankTexts(Some(TextOrEmpty(a.fields.name)), a.fields.name);
  }

  /** When the user's copy is dropped because the system's says the same, reading that one gives back what was in memory. */
  lemma DroppedReadsBack(a: App, disk: Disk, writable: bool, langs: seq<string>)
    requires EqualsSystem(a, disk, langs) && !IsBlank(a.fields.name) && a.system != Some(a.path)
    ensures var b := Saved(a, disk, writable, langs);
            var after := DiskAfter(a, disk, writable, langs);
            && b.mask == {} && b.position == a.system && Base(b) in after && a.path !in after
            && SameFields(Loaded(after[Base(b)], langs), b.fields) && b.fields == a.fields
  {
    BlankTexts(Raw(disk[a.system.value], langs).name, a.fields.name);
  }

  lemma BlankTexts(a: Option<string>, b: Option<string>)
    requires SameText(a, b)
    ensures IsBlank(a) == IsBlank(b)
  {
  }

  /** As it was read: nothing edited, nothing to be saved. */
  predicate Clean(a: App, disk: Disk, langs: seq<string>) {
    && a.base.None? && a.mask == {} && a.position == Some(a.path) && (a.system.Some? ==> a.system.value > 0)
    && a.path in disk && a.fields == Loaded(disk[a.path], langs)
  }

  /** Edits are collected against the file that was read, and go to the user's directory. */
  predicate EditedFrom(a: App, b: App) {
    && Base(b) == a.path && b.system == a.system && Editable(b.mask)
    && (if b.mask == {} then b == a else b.path == 0 && b.position == Some(0))
  }

  lemma {:induction false} EditsGoToUser(a: App, es: seq<Edit>, disk: Disk, langs: seq<string>)
    requires Clean(a, disk, langs)
    ensures EditedFrom(a, ApplyAll(a, es))
  {
    if es != [] {
      EditsGoToUser(a, es[..|es| - 1], disk, langs);
      EditGoesToUser(a, ApplyAll(a, es[..|es| - 1]), es[|es| - 1]);
    }
  }

  lemma EditGoesToUser(a: App, b: App, e: Edit)
    requires EditedFrom(a, b) && a.base.None? && a.position == Some(a.path)
    ensures EditedFrom(a, Apply(b, e))
  {
    match e
    case SetHidden(hidden) => QueueSaveKeepsBase(b.(fields := b.fields.(hidden := hidden), mask := b.mask + {Hidden}));
    case Update(name, comment, exec, delay) =>
      if Changes(b.fields, name, comment, exec, delay) {
        var c := Updated(b, name, comment, exec, delay);
        assert Name in c.mask || Comment in c.mask || Exec in c.mask || Delay in c.mask;
        QueueSaveKeepsBase(c);
      }
    case DeleteApp =>
      assert b.mask + {Hidden} != {};
      QueueSaveKeepsBase(b.(fields := b.fields.(hidden := true), mask := b.mask + {Hidden}));
  }

  /**
   An application that was read, edited in any way and saved is read back as it
   was in memory: from the system's copy when that says the same, and otherwise
   from the user's, exactly when no variant hides an edited name or comment.
   Deleting an application that only the user has ends it: the program removes
   the file and the object, and the save spoken of here does not take place.
   */
  lemma EditedSavedReadBack(a: App, es: seq<Edit>, disk: Disk, langs: seq<string>)
    requires Clean(a, disk, langs) && IsNamed(disk[a.path], langs)
    requires ApplyAll(a, es).mask != {} && !IsBlank(ApplyAll(a, es).fields.name)
    ensures var b := ApplyAll(a, es);
            var c, after := Saved(b, disk, true, langs), DiskAfter(b, disk, true, langs);
            && c.mask == {} && c.fields == b.fields && Base(c) in after
            && (SameFields(Loaded(after[Base(c)], langs), c.fields) <==>
                  || EqualsSystem(b, disk, langs)
                  || ((Name in b.mask ==> Unshadowed(disk[a.path], Name, langs, b.fields.name))
                      && (Comment in b.mask ==> Unshadowed(disk[a.path], Comment, langs, b.fields.comment))))
  {
    var b := ApplyAll(a, es);
    EditsAgree(a, es, disk, langs);
    EditsGoToUser(a, es, disk, langs);
    if EqualsSystem(b, disk, langs) {
      DroppedReadsBack(b, disk, true, langs);
    } else {
      ReadsBackExactlyWhen(b, disk, langs);
    }
  }

  const POSTED: KeyFile :=
    map[Plain(Name) := Text("Mail"), Local(Name, "de_DE.UTF-8") := Text("Post"), Plain(Exec) := Text("mail")]

  const GERMAN: seq<string> := ["de_DE.UTF-8", "de_DE"]

  lemma PostedReads()
    ensures Loaded(POSTED, GERMAN) == Fields(false, Some("Post"), None, Some("mail"), 0, None)
    ensures Shadow(POSTED, Name, GERMAN) == Some("Post")
  {
    assert GERMAN[0][5] == '.';
    assert !IsSpace("Post"[0]);
    assert GetLocale(POSTED, Comment, GERMAN[1..]) == None && GetLocale(POSTED, Icon, GERMAN[1..]) == None;
  }

  /** A new name goes to the variant without an encoding, and the one with an encoding is read first. */
  lemma NewNameIsHidden()
    ensures var disk: Disk := map[0 := POSTED];
            var a := Read(None, 0, POSTED, GERMAN);
            var b := Apply(a, Update(Some("Letters"), None, "mail", 0));
            var after := DiskAfter(b, disk, true, GERMAN);
            && Clean(a, disk, GERMAN) && b.fields.name == Some("Letters")
            && 0 in after && Loaded(after[0], GERMAN).name == Some("Post")
  {
    var disk: Disk := map[0 := POSTED];
    var a := Read(None, 0, POSTED, GERMAN);
    var b := Apply(a, Update(Some("Letters"), None, "mail", 0));
    PostedReads();
    assert "Letters" != "Post" by {
      assert |"Letters"| != |"Post"|;
    }
    assert b.mask == {Name} && b.path == 0 && b.base == None && !EqualsSystem(b, disk, GERMAN);
    SetLocaleReads(POSTED, Name, GERMAN, b.fields.name);
    assert !IsSpace("Post"[0]);
  }

  /** The file that is written differs from its base in edited keys only. */
  lemma OnlyEditedKeysChange(a: App, disk: Disk, langs: seq<string>, other: Key)
    requires Agrees(a, disk, langs) && !EqualsSystem(a, disk, langs) && other !in a.mask
    ensures SameKey(DiskAfter(a, disk, true, langs)[a.path], disk[Base(a)], other)
  {
    WrittenElsewhere(disk[Base(a)], a.fields, a.mask, langs, other);
  }

  /** The notice that its own save brings about changes nothing, whatever the file says by then. */
  lemma OwnSaveIgnored(a: App, disk: Disk, kf: KeyFile, langs: seq<string>)
    requires !EqualsSystem(a, disk, langs) && a.position.Some?
    ensures var b := Saved(a, disk, true, langs);
            && b.fields == a.fields && !b.timer && b.mask == {}
            && Read(Some(b), a.position.value, kf, langs) == b.(skip := false)
  {
  }

  /** A save that fails loses nothing: the next one starts from the same base with the same edits. */
  lemma FailedSaveKeepsEdits(a: App, disk: Disk, langs: seq<string>)
    requires Agrees(a, disk, langs) && !EqualsSystem(a, disk, langs)
    ensures var b := Saved(a, disk, false, langs);
            DiskAfter(a, disk, false, langs) == disk && Agrees(b, disk, langs) && b.mask == a.mask && Base(b) == Base(a)
  {
  }

  /**
   Dropping the user's copy leaves the timer marked as running. A second save,
   which the application makes when it is disposed of, takes the system's own
   copy for the user's and removes it.
   */
  lemma SecondSaveRemovesSystemCopy(a: App, disk: Disk, langs: seq<string>)
    requires EqualsSystem(a, disk, langs) && a.timer && a.system != Some(a.path)
    ensures var b := Saved(a, disk, true, langs);
            var after := DiskAfter(a, disk, true, langs);
            && b.timer && EqualsSystem(b, after, langs)
            && a.system.value in after && a.system.value !in DiskAfter(b, after, true, langs)
  {
  }
}
