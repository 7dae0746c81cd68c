/**
 What the session manager's event handlers do, as functions from state to state.

 Store notifications are synchronous in the original: removing an inhibitor
 can empty the inhibit dialog, which accepts itself and ends the phase before
 the handler that removed the inhibitor goes on. Each function below gives the
 net effect of one handler, with those nested calls in place.
 */
module Session {
  import opened Wrappers
  import P = Presence

  // ----- phases -----

  type Phase = n: nat | n <= 9
  const STARTUP: Phase := 0
  const INITIALIZATION: Phase := 1
  const DESKTOP: Phase := 4
  const APPLICATION: Phase := 5
  const RUNNING: Phase := 6
  const QUERY_END_SESSION: Phase := 7
  const END_SESSION: Phase := 8
  const EXIT: Phase := 9

  // ----- entities -----

  type ClientId = nat
  type InhibitorId = nat
  type App = nat

  /** Random cookies are drawn from 1..MAX_COOKIE, that is 1..2^31-2. */
  const MAX_COOKIE := 0x7FFF_FFFE

  datatype Mode = Normal | NoConfirmation | Force

  datatype Ending =
    | NoEnding
    | Logout
    | Reboot | RebootInteract | RebootMdm
    | Shutdown | ShutdownInteract | ShutdownMdm

  datatype Action = ActLogout | ActReboot | ActShutdown | ActSwitchUser | ActHibernate | ActSleep

  predicate EndsSession(a: Action) {
    a.ActLogout? || a.ActReboot? || a.ActShutdown?
  }

  function ActionFor(e: Ending): Action {
    match e
    case Logout | NoEnding => ActLogout
    case Reboot | RebootInteract | RebootMdm => ActReboot
    case Shutdown | ShutdownInteract | ShutdownMdm => ActShutdown
  }

  /** `bus` is the unique bus name of a D-Bus client; XSMP clients have none. */
  datatype Client = Client(bus: Option<string>, startupId: string, appId: string, watched: bool)

  datatype Flag = FlagLogout | FlagSwitchUser | FlagSuspend | FlagIdle | FlagUnknown(bit: nat)

  /** An inhibitor with a client is a just-in-time one, made by the manager itself. */
  datatype Inhibitor = Inhibitor(client: Option<ClientId>, flags: set<Flag>, bus: Option<string>, cookie: nat)

  datatype Dialog = Dialog(action: Action, rows: set<InhibitorId>)

  datatype AppInfo = AppInfo(phase: Phase, disabled: bool, delayed: bool, startupId: string, appId: string)

  datatype Notice = AskQuery(forced: bool) | AskEnd(forced: bool, save: bool, last: bool) | TellCancel | TellStop

  /** What the manager did to the outside world. */
  datatype Message =
    | Send(to: ClientId, notice: Notice)
    | SaveSession
    | Perform(action: Action)
    | Quit(ending: Ending)

  /** A timer is its source number, 0 when it is not armed; `sources` were handed out so far. */
  datatype State = State(
    phase: Phase,
    phaseTimer: nat,
    queryTimer: nat,
    sources: nat,
    pending: set<App>,
    query: seq<ClientId>,
    next: seq<ClientId>,
    mode: Mode,
    ending: Ending,
    dialog: Option<Dialog>,
    clients: map<ClientId, Client>,
    nextClient: ClientId,
    inhibitors: map<InhibitorId, Inhibitor>,
    nextInhibitor: InhibitorId,
    apps: map<App, AppInfo>,
    presence: P.PresenceState,
    log: seq<Message>,
    trail: seq<Phase>)

  function Initial(apps: map<App, AppInfo>, idleCounter: bool): State {
    State(STARTUP, 0, 0, 0, {}, [], [], Normal, NoEnding, None, map[], 0, map[], 0, apps, P.Initial(idleCounter), [], [])
  }

  /**
   What one event finds outside the manager: the order in which the client
   table is walked, which sends succeed, which applications start, the
   settings, and the random numbers that will be drawn.
   */
  datatype Env = Env(
    order: seq<ClientId>,
    queryOk: set<ClientId>,
    endOk: set<ClientId>,
    lastOk: set<ClientId>,
    launched: set<App>,
    autoSave: bool,
    loginWindow: bool,
    lockedDown: bool,
    switchLocked: bool,
    prompt: bool,
    random: nat -> nat,
    generated: string)

  // ----- broadcasting -----

  /** The notices sent to those in `keep`, in the order of the list. */
  function Notices(order: seq<ClientId>, keep: set<ClientId>, n: Notice): seq<Message> {
    if order == [] then []
    else
      var k := |order| - 1;
      Notices(order[..k], keep, n) + if order[k] in keep then [Send(order[k], n)] else []
  }

  /** The list that prepending each member of `keep` in turn builds. */
  function Prepended(order: seq<ClientId>, keep: set<ClientId>): seq<ClientId> {
    if order == [] then []
    else
      var k := |order| - 1;
      (if order[k] in keep then [order[k]] else []) + Prepended(order[..k], keep)
  }

  /** Removing from a singly linked list drops the first occurrence only. */
  function RemoveFirst(list: seq<ClientId>, c: ClientId): seq<ClientId> {
    if list == [] then []
    else if list[0] == c then list[1..]
    else [list[0]] + RemoveFirst(list[1..], c)
  }

  // ----- inhibitors -----

  predicate Inhibited(inhibitors: map<InhibitorId, Inhibitor>, f: Flag) {
    exists i :: i in inhibitors && f in inhibitors[i].flags
  }

  predicate IsJit(inh: Inhibitor) {
    inh.client.Some?
  }

  function UpdateIdle(s: State): State {
    s.(presence := P.SetEnabled(s.presence, !Inhibited(s.inhibitors, FlagIdle)))
  }

  function Cookies(inhibitors: map<InhibitorId, Inhibitor>): set<nat> {
    set i | i in inhibitors :: inhibitors[i].cookie
  }

  /** The first random draw that is not a cookie in use. */
  ghost predicate FirstFresh(random: nat -> nat, used: set<nat>, k: nat) {
    random(k) !in used && forall j: nat | j < k :: random(j) in used
  }

  ghost predicate Drawn(random: nat -> nat, cookie: nat) {
    exists k: nat :: random(k) == cookie
  }

  ghost function FreshCookie(random: nat -> nat, used: set<nat>): nat {
    if k: nat :| FirstFresh(random, used, k) then random(k) else 0
  }

  function AddInhibitor(s: State, inh: Inhibitor): State {
    var id := s.nextInhibitor;
    UpdateIdle(s.(inhibitors := s.inhibitors[id := inh],
                  nextInhibitor := id + 1,
                  dialog := if s.dialog.None? then None else Some(s.dialog.value.(rows := s.dialog.value.rows + {id}))))
  }

  function BusOf(s: State, c: ClientId): Option<string> {
    if c in s.clients then s.clients[c].bus else None
  }

  ghost function AddJit(s: State, c: ClientId, env: Env): State {
    AddInhibitor(s, Inhibitor(Some(c), {FlagLogout}, BusOf(s, c), FreshCookie(env.random, Cookies(s.inhibitors))))
  }

  ghost function AddJits(s: State, list: seq<ClientId>, env: Env): State {
    if list == [] then s
    else AddJit(AddJits(s, list[..|list| - 1], env), list[|list| - 1], env)
  }

  function WithoutRows(dialog: Option<Dialog>, gone: set<InhibitorId>): Option<Dialog> {
    if dialog.None? then None else Some(dialog.value.(rows := dialog.value.rows - gone))
  }

  /** The inhibitors are gone from the store and from an open dialog. */
  function Without(s: State, gone: set<InhibitorId>): State {
    UpdateIdle(s.(inhibitors := s.inhibitors - gone, dialog := WithoutRows(s.dialog, gone)))
  }

  /** Drops the inhibitors and, when that empties the dialog, lets the dialog accept itself. */
  function RemoveInhibitors(s: State, gone: set<InhibitorId>, env: Env): State {
    if gone !! s.inhibitors.Keys then s
    else
      var t := Without(s, gone);
      if t.dialog.Some? && t.dialog.value.rows == {} then Accept(t, env) else t
  }

  function JitsOf(s: State, c: ClientId): set<InhibitorId> {
    set i | i in s.inhibitors && s.inhibitors[i].client == Some(c)
  }

  function Jits(s: State): set<InhibitorId> {
    set i | i in s.inhibitors && IsJit(s.inhibitors[i])
  }

  function OnBus(s: State, name: string): set<InhibitorId> {
    set i | i in s.inhibitors && s.inhibitors[i].bus == Some(name)
  }

  // ----- phases -----

  function ArmPhaseTimer(s: State): State {
    s.(phaseTimer := s.sources + 1, sources := s.sources + 1)
  }

  function Reset(s: State): State {
    s.(pending := {}, query := [], next := [], queryTimer := 0, phaseTimer := 0, trail := s.trail + [s.phase])
  }

  function Startable(s: State, env: Env): set<App> {
    set a | a in s.apps && s.apps[a].phase == s.phase && !s.apps[a].disabled && !s.apps[a].delayed && a in env.launched
  }

  function StartApps(s: State, env: Env): State {
    if s.phase < APPLICATION && Startable(s, env) != {} then ArmPhaseTimer(s.(pending := Startable(s, env))) else s
  }

  function StartQuery(s: State, env: Env): State {
    var asked := s.clients.Keys * env.queryOk;
    s.(log := s.log + Notices(env.order, asked, AskQuery(s.mode == Force)),
       query := Prepended(env.order, asked),
       queryTimer := s.sources + 1, sources := s.sources + 1)
  }

  function StartEnd(s: State, env: Env): State {
    if s.clients == map[] then s
    else
      var asked := s.clients.Keys * env.endOk;
      var t := ArmPhaseTimer(s);
      t.(log := t.log + Notices(env.order, asked, AskEnd(s.mode == Force, env.autoSave, false)),
         query := Prepended(env.order, asked))
  }

  /** The work a phase does when it starts. */
  function Begin(s: State, env: Env): State {
    var t := Reset(s);
    if t.phase <= APPLICATION then StartApps(t, env)
    else if t.phase == RUNNING then UpdateIdle(t)
    else if t.phase == QUERY_END_SESSION then StartQuery(t, env)
    else if t.phase == END_SESSION then StartEnd(t, env)
    else t.(log := t.log + Notices(env.order, t.clients.Keys, TellStop))
  }

  /** A phase that has just begun and waits for nothing ends at once. */
  predicate GoesOn(s: State) {
    || (s.phase <= APPLICATION && s.pending == {})
    || (s.phase == END_SESSION && s.clients == map[])
    || s.phase == EXIT
  }

  function StartPhase(s: State, env: Env): State
    decreases EXIT - s.phase, 1
  {
    if GoesOn(Begin(s, env)) then EndPhase(Begin(s, env), env) else Begin(s, env)
  }

  /** The work a phase does when it ends. */
  function Finish(s: State, env: Env): State {
    var t := s.(pending := {}, query := [], next := [], phaseTimer := 0);
    if t.phase == EXIT then t.(log := t.log + [Quit(t.ending)])
    else if t.phase == END_SESSION && env.autoSave && !env.loginWindow then t.(log := t.log + [SaveSession])
    else t
  }

  predicate Stays(s: State, env: Env) {
    s.phase == EXIT || (s.phase == RUNNING && env.lockedDown)
  }

  function Advance(s: State): State
    requires s.phase < EXIT
  {
    s.(phase := s.phase + 1)
  }

  function EndPhase(s: State, env: Env): State
    decreases EXIT - s.phase, 0
  {
    if Stays(s, env) then Finish(s, env) else StartPhase(Advance(Finish(s, env)), env)
  }

  /** The second round: clients that asked to be last are told to go now. */
  function SecondRound(s: State, env: Env): State {
    s.(log := s.log + Notices(s.next, env.lastOk, AskEnd(s.mode == Force, env.autoSave, true)),
       query := Prepended(s.next, env.lastOk) + s.query,
       next := [])
  }

  // ----- the inhibit dialog -----

  function CarryOut(s: State, a: Action, env: Env): State {
    if EndsSession(a) then EndPhase(s.(mode := Force), env)
    else if a == ActSwitchUser && env.switchLocked then s
    else s.(log := s.log + [Perform(a)])
  }

  function Accept(s: State, env: Env): State {
    if s.dialog.None? then s
    else CarryOut(s.(dialog := None), s.dialog.value.action, env)
  }

  function Decline(s: State, env: Env): State {
    if s.dialog.None? then s
    else if EndsSession(s.dialog.value.action) then Cancel(s.(dialog := None), env)
    else s.(dialog := None)
  }

  /** The session as it is when a logout has been taken back, just before it runs again. */
  function Withdrawn(s: State, env: Env): State {
    var t := RemoveInhibitors(s.(dialog := None), Jits(s), env);
    t.(log := t.log + Notices(env.order, t.clients.Keys, TellCancel), phase := RUNNING, mode := Normal, ending := NoEnding)
  }

  function Cancel(s: State, env: Env): State {
    if s.phase < QUERY_END_SESSION then s else StartPhase(Withdrawn(s, env), env)
  }

  // ----- answers -----

  ghost function QueryComplete(s: State, env: Env): State {
    var t := s.(queryTimer := 0);
    if !Inhibited(t.inhibitors, FlagLogout) then EndPhase(t, env)
    else if t.dialog.Some? then t
    else t.(dialog := Some(Dialog(ActionFor(t.ending), t.inhibitors.Keys)))
  }

  /** The part of an answer that comes after inhibitors were added or removed: it looks at the phase anew. */
  ghost function AfterAnswer(s: State, c: ClientId, last: bool, env: Env): State {
    if s.phase == QUERY_END_SESSION then
      if s.query == [] then QueryComplete(s, env) else s
    else if s.phase == END_SESSION then
      var t := if last then s.(next := [c] + s.next) else s;
      if t.query != [] || Inhibited(t.inhibitors, FlagLogout) then t
      else if t.next != [] then SecondRound(t, env)
      else EndPhase(t, env)
    else s
  }

  ghost function Answer(s: State, c: ClientId, ok: bool, last: bool, cancel: bool, env: Env): State {
    if s.phase < QUERY_END_SESSION then s
    else if cancel then Cancel(s, env)
    else
      var t := s.(query := RemoveFirst(s.query, c));
      var u := if !ok && t.mode != Force then AddJit(t, c, env) else RemoveInhibitors(t, JitsOf(t, c), env);
      AfterAnswer(u, c, last, env)
  }

  ghost function QueryTimeout(s: State, env: Env): State {
    if s.queryTimer == 0 then s
    else
      var t := s.(queryTimer := 0);
      var u := if t.mode == Force then t else AddJits(t, t.query, env);
      QueryComplete(u.(query := []), env)
  }

  // ----- disconnection -----

  ghost function Disconnect(s: State, c: ClientId, env: Env): State {
    var t := RemoveInhibitors(s, JitsOf(s, c), env);
    if t.phase == QUERY_END_SESSION then Answer(t, c, true, false, false, env) else t
  }

  function ExitIfEmpty(s: State, env: Env): State {
    if s.phase >= QUERY_END_SESSION && s.clients == map[] then EndPhase(s, env) else s
  }

  ghost function Drop(s: State, c: ClientId, env: Env): State {
    var t := Disconnect(s, c, env);
    t.(clients := t.clients - {c})
  }

  /** Disconnects, one after the other, the listed clients that are still there and on the bus as told. */
  ghost function DropAll(s: State, list: seq<ClientId>, name: Option<string>, env: Env): State {
    if list == [] then s
    else
      var t := DropAll(s, list[..|list| - 1], name, env);
      var c := list[|list| - 1];
      if c in t.clients && t.clients[c].bus.Some? && (name.None? || t.clients[c].bus == name) then Drop(t, c, env) else t
  }

  ghost function ClientGone(s: State, c: ClientId, env: Env): State {
    if c !in s.clients || s.clients[c].bus.Some? || !s.clients[c].watched then s
    else ExitIfEmpty(Drop(s, c, env), env)
  }

  ghost function BusNameLost(s: State, name: string, env: Env): State {
    if name == "" then s
    else
      var t := RemoveInhibitors(s, OnBus(s, name), env);
      ExitIfEmpty(DropAll(t, env.order, Some(name), env), env)
  }

  ghost function BusLost(s: State, env: Env): State {
    ExitIfEmpty(DropAll(s, env.order, None, env), env)
  }

  // ----- startup and registration -----

  function Start(s: State, env: Env): State {
    if s.phase == STARTUP then StartPhase(s.(phase := INITIALIZATION), env) else s
  }

  function PhaseTimeout(s: State, env: Env): State {
    if s.phaseTimer == 0 then s else EndPhase(s.(phaseTimer := 0), env)
  }

  function AppSignal(s: State, a: App, env: Env): State {
    if a !in s.pending then s
    else
      var t := s.(pending := s.pending - {a});
      if t.pending == {} then EndPhase(t.(phaseTimer := 0), env) else t
  }

  /** The application a client claims to be, as the manager looks it up by startup id. */
  predicate HasStartupId(s: State, a: App, id: string) {
    && a in s.apps && s.apps[a].startupId == id
    && (if s.phase < APPLICATION then a in s.pending else id != "")
  }

  predicate Taken(s: State, id: string) {
    exists c :: c in s.clients && s.clients[c].startupId == id
  }

  function AddClient(s: State, c: Client): State {
    s.(clients := s.clients[s.nextClient := c], nextClient := s.nextClient + 1)
  }

  function Signalled(s: State, app: Option<App>, env: Env): State {
    if app.Some? then AppSignal(s, app.value, env) else s
  }

  function AppIdOr(s: State, app: Option<App>, otherwise: string): string {
    if app.Some? && app.value in s.apps then s.apps[app.value].appId else otherwise
  }

  /** An XSMP client registers, with `app` the application found for its id. */
  function RegisterXsmp(s: State, c: ClientId, previous: string, app: Option<App>, env: Env): State {
    if c !in s.clients || s.clients[c].bus.Some? || s.phase >= QUERY_END_SESSION then s
    else if previous == "" then
      s.(clients := s.clients[c := s.clients[c].(startupId := env.generated, watched := true)])
    else if Taken(s, previous) then s
    else if app.None? then s.(clients := s.clients[c := s.clients[c].(watched := true)])
    else
      var t := AppSignal(s, app.value, env);
      t.(clients := t.clients[c := s.clients[c].(startupId := previous, watched := true, appId := AppIdOr(s, app, ""))])
  }

  /** What the client is told: its id, or nothing when it is refused. */
  function XsmpReply(s: State, previous: string, app: Option<App>, env: Env): Option<string> {
    if s.phase >= QUERY_END_SESSION then None
    else if previous == "" then Some(env.generated)
    else if Taken(s, previous) || app.None? then None
    else Some(previous)
  }

  function RegisterDBus(s: State, startupId: string, appId: string, bus: string, app: Option<App>, env: Env): State {
    if s.phase >= QUERY_END_SESSION || (startupId != "" && Taken(s, startupId)) then s
    else
      var id := if startupId == "" then env.generated else startupId;
      Signalled(AddClient(s, Client(Some(bus), id, AppIdOr(s, app, appId), false)), app, env)
  }

  // ----- calls from outside -----

  ghost function Inhibit(s: State, appId: string, reason: string, flags: set<Flag>, bus: string, env: Env): State {
    if s.mode == Force || appId == "" || reason == "" || flags == {} then s
    else AddInhibitor(s, Inhibitor(None, flags, Some(bus), FreshCookie(env.random, Cookies(s.inhibitors))))
  }

  function WithCookie(s: State, cookie: nat): set<InhibitorId> {
    set i | i in s.inhibitors && s.inhibitors[i].cookie == cookie
  }

  function Uninhibit(s: State, cookie: nat, env: Env): State {
    RemoveInhibitors(s, WithCookie(s, cookie), env)
  }

  function RequestLogout(s: State, mode: Mode, env: Env): State {
    if s.phase != RUNNING || env.lockedDown then s
    else if mode == Normal && env.prompt then s.(mode := Normal)
    else EndPhase(s.(mode := mode, ending := Logout), env)
  }

  /** A reboot or shutdown whose privileges are settled while the session runs. */
  function RequestHalt(s: State, ending: Ending, env: Env): State {
    if s.phase != RUNNING || ending == NoEnding || ending == Logout then s
    else EndPhase(s.(ending := ending), env)
  }

  function FlagFor(a: Action): Flag {
    if a == ActSwitchUser then FlagSwitchUser else FlagSuspend
  }

  ghost function RequestSleep(s: State, a: Action, env: Env): State {
    if EndsSession(a) || (a == ActSwitchUser && env.switchLocked) then s
    else if !Inhibited(s.inhibitors, FlagFor(a)) then s.(log := s.log + [Perform(a)])
    else if s.dialog.Some? then s
    else s.(dialog := Some(Dialog(a, s.inhibitors.Keys)))
  }

  // ----- events -----

  datatype Event =
    | EvStart
    | EvAppSignal(app: App)
    | EvPhaseTimeout
    | EvQueryTimeout
    | EvAnswer(client: ClientId, ok: bool, last: bool, cancel: bool)
    | EvClientGone(client: ClientId)
    | EvBusNameLost(name: string)
    | EvBusLost
    | EvInhibit(appId: string, reason: string, flags: set<Flag>, bus: string)
    | EvUninhibit(cookie: nat)
    | EvLogout(mode: Mode)
    | EvHalt(ending: Ending)
    | EvSleep(action: Action)
    | EvAccept
    | EvDecline
    | EvConnect
    | EvRegisterXsmp(client: ClientId, previous: string, found: Option<App>)
    | EvRegisterDBus(startupId: string, appId: string, bus: string, found: Option<App>)
    | EvPresence(event: P.PresenceEvent)

  /** The events that come from clients. */
  predicate FromClient(e: Event) {
    || e.EvAnswer? || e.EvClientGone? || e.EvBusNameLost? || e.EvBusLost?
    || e.EvConnect? || e.EvRegisterXsmp? || e.EvRegisterDBus? || e.EvInhibit? || e.EvUninhibit?
  }

  ghost function ClientStep(s: State, e: Event, env: Env): State {
    match e
    case EvAnswer(c, ok, last, cancel) => if c in s.clients then Answer(s, c, ok, last, cancel, env) else s
    case EvClientGone(c) => ClientGone(s, c, env)
    case EvBusNameLost(name) => BusNameLost(s, name, env)
    case EvBusLost => BusLost(s, env)
    case EvInhibit(appId, reason, flags, bus) => Inhibit(s, appId, reason, flags, bus, env)
    case EvUninhibit(cookie) => Uninhibit(s, cookie, env)
    case EvConnect => AddClient(s, Client(None, "", "", false))
    case EvRegisterXsmp(c, previous, app) => RegisterXsmp(s, c, previous, app, env)
    case EvRegisterDBus(startupId, appId, bus, app) => RegisterDBus(s, startupId, appId, bus, app, env)
    case _ => s
  }

  ghost function OwnStep(s: State, e: Event, env: Env): State {
    match e
    case EvStart => Start(s, env)
    case EvAppSignal(a) => AppSignal(s, a, env)
    case EvPhaseTimeout => PhaseTimeout(s, env)
    case EvQueryTimeout => QueryTimeout(s, env)
    case EvLogout(mode) => RequestLogout(s, mode, env)
    case EvHalt(ending) => RequestHalt(s, ending, env)
    case EvSleep(a) => RequestSleep(s, a, env)
    case EvAccept => Accept(s, env)
    case EvDecline => Decline(s, env)
    case EvPresence(pe) => if pe.Enable? then s else s.(presence := P.Next(s.presence, pe))
    case _ => s
  }

  ghost function Step(s: State, e: Event, env: Env): State {
    if FromClient(e) then ClientStep(s, e, env) else OwnStep(s, e, env)
  }

  /** The source of random draws yields cookies only, and leaves none out forever. */
  ghost predicate Fair(random: nat -> nat) {
    && (forall k: nat :: 1 <= random(k) <= MAX_COOKIE)
    && (forall cookie: nat | 1 <= cookie <= MAX_COOKIE :: Drawn(random, cookie))
  }

  /** The client table is walked once, and completely. */
  predicate Walks(order: seq<ClientId>, clients: map<ClientId, Client>) {
    NoDuplicates(order) && forall c | c in clients :: c in order
  }

  /**
   What holds of the outside world at every event: the client table is walked
   properly, random draws are fair, a generated startup id is new, and the
   number of inhibitors stays below the number of cookies.
   */
  ghost predicate Possible(s: State, e: Event, env: Env) {
    && Walks(env.order, s.clients)
    && Fair(env.random)
    && env.generated != "" && !Taken(s, env.generated)
    && |s.inhibitors| + |s.query| < MAX_COOKIE
  }

  ghost function Run(s: State, es: seq<(Event, Env)>): State {
    if es == [] then s
    else
      var t := Run(s, es[..|es| - 1]);
      Step(t, es[|es| - 1].0, es[|es| - 1].1)
  }

  ghost predicate PossibleRun(s: State, es: seq<(Event, Env)>) {
    es != [] ==>
      && PossibleRun(s, es[..|es| - 1])
      && Possible(Run(s, es[..|es| - 1]), es[|es| - 1].0, es[|es| - 1].1)
  }
}
