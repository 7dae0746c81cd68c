/**
 The SaveYourself conversation with one XSMP client: at most one request is
 under way and at most one more is queued.

 The queue is emptied when the client reports that it is done. The code tests
 the queued type against zero, although the value for an empty queue is -1 and
 zero is a valid type; `Done` is that code, `Intended` tests for an empty queue.
 */
module SaveYourself {
  import opened Wrappers

  const NONE: int := -1
  const SAVE_GLOBAL: int := 0
  const SAVE_LOCAL: int := 1
  const SAVE_BOTH: int := 2

  datatype Style = StyleNone | StyleAny

  /** What went over the connection, in both directions. */
  datatype Entry =
    | Save(kind: int, shutdown: bool, style: Style, fast: bool)
    | SaveComplete
    | ShutdownCancelled
    | SecondPhase
    | GotDone
    | GotPhase2Request

  datatype Saver = Saver(current: int, next: int, interact: bool, registered: bool, trace: seq<Entry>)

  function Initial(): Saver {
    Saver(NONE, NONE, false, false, [])
  }

  /** What the session manager asks of a client. */
  datatype Call = Query(forced: bool) | End(save: bool, last: bool) | CancelEnd

  function Message(kind: int, interact: bool): Entry {
    if kind == SAVE_LOCAL then Save(SAVE_LOCAL, false, StyleNone, false)
    else if !interact then Save(kind, true, StyleNone, true)
    else Save(kind, true, StyleAny, false)
  }

  function Request(s: Saver, kind: int, interact: bool): Saver {
    if s.next != NONE then s
    else if s.current != NONE then s.(next := kind, interact := interact)
    else s.(current := kind, next := NONE, interact := false, trace := s.trace + [Message(kind, interact)])
  }

  function Perform(s: Saver, call: Call): Saver {
    match call
    case Query(forced) => Request(s, SAVE_GLOBAL, !forced)
    case End(save, last) =>
      if last then s.(trace := s.trace + [SecondPhase])
      else Request(s, if save then SAVE_BOTH else SAVE_GLOBAL, false)
    case CancelEnd => s.(current := NONE, next := NONE, interact := false, trace := s.trace + [ShutdownCancelled])
  }

  function PerformAll(s: Saver, calls: seq<Call>): Saver {
    if calls == [] then s else Perform(PerformAll(s, calls[..|calls| - 1]), calls[|calls| - 1])
  }

  /** The request under way is closed, before anybody else hears of it. */
  function Acknowledge(s: Saver): Saver {
    s.(current := NONE, trace := s.trace + [GotDone] + if s.current != NONE then [SaveComplete] else [])
  }

  function TakeNext(s: Saver): Saver {
    Request(s.(next := NONE, interact := true), s.next, s.interact)
  }

  /** The session manager answers the report with calls of its own before the queue is looked at. */
  function Done(s: Saver, during: seq<Call>): Saver {
    var t := PerformAll(Acknowledge(s), during);
    if t.next != 0 then TakeNext(t) else t
  }

  function Intended(s: Saver, during: seq<Call>): Saver {
    var t := PerformAll(Acknowledge(s), during);
    if t.next != NONE then TakeNext(t) else t
  }

  datatype Event =
    | Register(isNew: bool)
    | Ask(call: Call)
    | ClientRequest(shutdown: bool, global: bool)
    | Phase2Request
    | DoneReport(during: seq<Call>)

  /** A client registers once, outside a logout, so that nothing is under way; a new one is asked to save at once. */
  predicate Proper(s: Saver, e: Event) {
    e.Register? ==> !s.registered && s.current == NONE
  }

  function Next(s: Saver, e: Event, literal: bool): Saver {
    match e
    case Register(isNew) =>
      if isNew then s.(registered := true, current := SAVE_LOCAL, trace := s.trace + [Message(SAVE_LOCAL, false)])
      else s.(registered := true)
    case Ask(call) => Perform(s, call)
    case ClientRequest(shutdown, global) => if !shutdown && !global then Request(s, SAVE_LOCAL, true) else s
    case Phase2Request => s.(current := NONE, trace := s.trace + [GotPhase2Request])
    case DoneReport(during) => if literal then Done(s, during) else Intended(s, during)
  }

  function Run(s: Saver, es: seq<Event>, literal: bool): Saver {
    if es == [] then s else Next(Run(s, es[..|es| - 1], literal), es[|es| - 1], literal)
  }

  predicate ProperRun(s: Saver, es: seq<Event>, literal: bool) {
    es != [] ==> ProperRun(s, es[..|es| - 1], literal) && Proper(Run(s, es[..|es| - 1], literal), es[|es| - 1])
  }

  // ----- the protocol -----

  /** Done, Phase2Request and ShutdownCancelled close a request. */
  predicate Closes(e: Entry) {
    e.GotDone? || e.GotPhase2Request? || e.ShutdownCancelled?
  }

  /** A request is under way at the end of this conversation. */
  predicate Open(trace: seq<Entry>) {
    trace != [] &&
      var last := trace[|trace| - 1];
      last.Save? || (!Closes(last) && Open(trace[..|trace| - 1]))
  }

  predicate IsKind(kind: int) {
    kind == SAVE_GLOBAL || kind == SAVE_LOCAL || kind == SAVE_BOTH
  }

  /** Requests are of a known type, and none is sent while another is under way. */
  predicate FollowsProtocol(trace: seq<Entry>) {
    forall k | 0 <= k < |trace| && trace[k].Save? :: IsKind(trace[k].kind) && !Open(trace[..k])
  }

  predicate Valid(s: Saver) {
    && (s.current == NONE || IsKind(s.current))
    && (s.next == NONE || IsKind(s.next))
    && (Open(s.trace) <==> s.current != NONE)
    && FollowsProtocol(s.trace)
  }

  lemma Entered(trace: seq<Entry>, e: Entry)
    requires FollowsProtocol(trace) && (e.Save? ==> IsKind(e.kind) && !Open(trace))
    ensures FollowsProtocol(trace + [e])
    ensures Open(trace + [e]) <==> e.Save? || (!Closes(e) && Open(trace))
  {
    var more := trace + [e];
    assert more[..|trace|] == trace;
    forall k | 0 <= k < |more| && more[k].Save?
      ensures IsKind(more[k].kind) && !Open(more[..k])
    {
      assert more[..k] == trace[..k];
    }
  }

  lemma RequestValid(s: Saver, kind: int, interact: bool)
    requires Valid(s) && IsKind(kind)
    ensures Valid(Request(s, kind, interact))
  {
    if s.next == NONE && s.current == NONE {
      Entered(s.trace, Message(kind, interact));
    }
  }

  lemma PerformValid(s: Saver, call: Call)
    requires Valid(s)
    ensures Valid(Perform(s, call))
  {
    match call
    case Query(forced) => RequestValid(s, SAVE_GLOBAL, !forced);
    case End(save, last) =>
      if last {
        Entered(s.trace, SecondPhase);
      } else {
        RequestValid(s, if save then SAVE_BOTH else SAVE_GLOBAL, false);
      }
    case CancelEnd => Entered(s.trace, ShutdownCancelled);
  }

  lemma {:induction false} PerformAllValid(s: Saver, calls: seq<Call>)
    requires Valid(s)
    ensures Valid(PerformAll(s, calls))
  {
    if calls != [] {
      PerformAllValid(s, calls[..|calls| - 1]);
      PerformValid(PerformAll(s, calls[..|calls| - 1]), calls[|calls| - 1]);
    }
  }

  lemma AcknowledgeValid(s: Saver)
    requires Valid(s)
    ensures Valid(Acknowledge(s))
  {
    Entered(s.trace, GotDone);
    if s.current != NONE {
      Entered(s.trace + [GotDone], SaveComplete);
    } else {
      assert s.trace + [GotDone] + [] == s.trace + [GotDone];
    }
  }

  lemma IntendedValid(s: Saver, during: seq<Call>)
    requires Valid(s)
    ensures Valid(Intended(s, during))
  {
    AcknowledgeValid(s);
    PerformAllValid(Acknowledge(s), during);
    var t := PerformAll(Acknowledge(s), during);
    if t.next != NONE {
      RequestValid(t.(next := NONE, interact := true), t.next, t.interact);
    }
  }

  /** With the queue tested for emptiness, every run of the conversation follows the protocol. */
  lemma {:induction false} ProtocolOverRuns(es: seq<Event>)
    requires ProperRun(Initial(), es, false)
    ensures Valid(Run(Initial(), es, false))
  {
    if es != [] {
      var s := Run(Initial(), es[..|es| - 1], false);
      ProtocolOverRuns(es[..|es| - 1]);
      match es[|es| - 1]
      case Register(isNew) => if isNew { Entered(s.trace, Message(SAVE_LOCAL, false)); }
      case Ask(call) => PerformValid(s, call);
      case ClientRequest(shutdown, global) => if !shutdown && !global { RequestValid(s, SAVE_LOCAL, true); }
      case Phase2Request => Entered(s.trace, GotPhase2Request);
      case DoneReport(during) => IntendedValid(s, during);
    }
  }

  // ----- what becomes of a queued request -----

  /** While one is queued, further requests are dropped and the queued one keeps its place. */
  lemma {:induction false} QueuedStays(s: Saver, calls: seq<Call>)
    requires s.next != NONE && forall k | 0 <= k < |calls| :: !calls[k].CancelEnd?
    ensures var t := PerformAll(s, calls);
            && t == s.(trace := t.trace) && s.trace <= t.trace
            && (forall k | |s.trace| <= k < |t.trace| :: t.trace[k].SecondPhase?)
  {
    if calls != [] {
      QueuedStays(s, calls[..|calls| - 1]);
    }
  }

  /** A queued request goes out exactly once, when the client is done, unless the logout was cancelled meanwhile. */
  lemma QueuedIsSentOnce(s: Saver, during: seq<Call>)
    requires Valid(s) && s.next != NONE && forall k | 0 <= k < |during| :: !during[k].CancelEnd?
    ensures var t := PerformAll(Acknowledge(s), during);
            && t.next == s.next && (forall k | |s.trace| <= k < |t.trace| :: !t.trace[k].Save?)
            && Intended(s, during) == t.(current := s.next, next := NONE, interact := false,
                                         trace := t.trace + [Message(s.next, s.interact)])
  {
    QueuedStays(Acknowledge(s), during);
    assert forall k | |s.trace| <= k < |Acknowledge(s).trace| :: !Acknowledge(s).trace[k].Save?;
  }

  lemma CancelEmptiesQueue(s: Saver, calls: seq<Call>)
    requires calls != [] && calls[|calls| - 1].CancelEnd?
    ensures PerformAll(s, calls).next == NONE && PerformAll(s, calls).current == NONE
  {
  }

  // ----- the code's own guard -----

  /** The code does what is intended exactly when a request is under way again, or a non-zero type is queued. */
  lemma GuardIsRightExactlyWhen(s: Saver, during: seq<Call>)
    ensures var t := PerformAll(Acknowledge(s), during);
            Done(s, during) == Intended(s, during) <==> t.current != NONE || (t.next != NONE && t.next != SAVE_GLOBAL)
  {
    var t := PerformAll(Acknowledge(s), during);
    if t.current == NONE {
      assert |TakeNext(t).trace| == |t.trace| + 1;
    }
  }

  /** Without calls from the session manager in between, that is: exactly when a local or full save is queued. */
  lemma PlainDoneIsRightExactlyWhen(s: Saver)
    requires Valid(s)
    ensures Done(s, []) == Intended(s, []) <==> s.next == SAVE_LOCAL || s.next == SAVE_BOTH
  {
    GuardIsRightExactlyWhen(s, []);
  }

  predicate GuardRight(s: Saver, during: seq<Call>) {
    var t := PerformAll(Acknowledge(s), during);
    t.current != NONE || (t.next != NONE && t.next != SAVE_GLOBAL)
  }

  predicate AlwaysRight(s: Saver, es: seq<Event>) {
    forall k | 0 <= k < |es| && es[k].DoneReport? :: GuardRight(Run(s, es[..k], false), es[k].during)
  }

  lemma RightPrefix(s: Saver, es: seq<Event>, n: nat)
    requires AlwaysRight(s, es) && n <= |es|
    ensures AlwaysRight(s, es[..n])
  {
    forall k | 0 <= k < n && es[..n][k].DoneReport?
      ensures GuardRight(Run(s, es[..n][..k], false), es[..n][k].during)
    {
      assert es[..n][..k] == es[..k];
    }
  }

  /** As long as the guard is right at every report, the code and the intention cannot be told apart. */
  lemma {:induction false} SameWhileRight(s: Saver, es: seq<Event>)
    requires AlwaysRight(s, es)
    ensures Run(s, es, true) == Run(s, es, false)
  {
    if es != [] {
      var n := |es| - 1;
      RightPrefix(s, es, n);
      SameWhileRight(s, es[..n]);
      if es[n].DoneReport? {
        GuardIsRightExactlyWhen(Run(s, es[..n], false), es[n].during);
      }
    }
  }

  lemma {:induction false} CallsGrow(s: Saver, calls: seq<Call>)
    ensures s.trace <= PerformAll(s, calls).trace
  {
    if calls != [] {
      CallsGrow(s, calls[..|calls| - 1]);
    }
  }

  lemma TraceGrows(s: Saver, e: Event, literal: bool)
    ensures s.trace <= Next(s, e, literal).trace
    ensures e.DoneReport? ==> s.trace + [GotDone] <= Next(s, e, literal).trace
  {
    if e.DoneReport? {
      CallsGrow(Acknowledge(s), e.during);
      assert s.trace + [GotDone] <= Acknowledge(s).trace;
    }
  }

  /** Only requests of a known type have been sent or queued. */
  predicate Sound(s: Saver) {
    (s.next == NONE || IsKind(s.next)) && forall e | e in s.trace && e.Save? :: IsKind(e.kind)
  }

  lemma {:induction false} CallsSound(s: Saver, calls: seq<Call>)
    requires Sound(s)
    ensures Sound(PerformAll(s, calls))
  {
    if calls != [] {
      CallsSound(s, calls[..|calls| - 1]);
    }
  }

  lemma IntendedSound(s: Saver, e: Event)
    requires Sound(s)
    ensures Sound(Next(s, e, false))
  {
    if e.DoneReport? {
      CallsSound(Acknowledge(s), e.during);
    }
  }

  lemma {:induction false} SoundOverRuns(es: seq<Event>)
    ensures Sound(Run(Initial(), es, false))
  {
    if es != [] {
      SoundOverRuns(es[..|es| - 1]);
      IntendedSound(Run(Initial(), es[..|es| - 1], false), es[|es| - 1]);
    }
  }

  predicate IsSave(trace: seq<Entry>, n: nat, kind: int) {
    n < |trace| && trace[n].Save? && trace[n].kind == kind
  }

  /** Entry `n` gives the code away: a request of no type, or one for a global save that is missing. */
  predicate Apart(code: Saver, intended: Saver, n: nat) {
    || (IsSave(code.trace, n, NONE) && Sound(intended))
    || (&& IsSave(intended.trace, n, SAVE_GLOBAL)
        && (if |code.trace| <= n then |code.trace| == n && code.next == SAVE_GLOBAL
            else !IsSave(code.trace, n, SAVE_GLOBAL)))
  }

  lemma ApartDiffer(code: Saver, intended: Saver, n: nat)
    requires Apart(code, intended, n)
    ensures code != intended
  {
    if IsSave(code.trace, n, NONE) {
      assert code.trace[n] in code.trace;
    }
  }

  lemma ApartStep(code: Saver, intended: Saver, n: nat, e: Event)
    requires Apart(code, intended, n)
    ensures Apart(Next(code, e, true), Next(intended, e, false), n)
  {
    TraceGrows(code, e, true);
    TraceGrows(intended, e, false);
    if IsSave(code.trace, n, NONE) && Sound(intended) {
      IntendedSound(intended, e);
    } else if |code.trace| == n && e.DoneReport? {
      assert Next(code, e, true).trace[n] == (code.trace + [GotDone])[n];
    }
  }

  lemma {:induction false} StaysApart(s: Saver, es: seq<Event>, k: nat, n: nat)
    requires k <= |es| && Apart(Run(s, es[..k], true), Run(s, es[..k], false), n)
    ensures Apart(Run(s, es, true), Run(s, es, false), n)
  {
    if k == |es| {
      assert es[..k] == es;
    } else {
      var before := es[..|es| - 1];
      assert before[..k] == es[..k];
      StaysApart(s, before, k, n);
      ApartStep(Run(s, before, true), Run(s, before, false), n, es[|es| - 1]);
    }
  }

  lemma WrongIsApart(s: Saver, during: seq<Call>)
    requires Sound(s) && !GuardRight(s, during)
    ensures Apart(Done(s, during), Intended(s, during), |PerformAll(Acknowledge(s), during).trace|)
  {
    CallsSound(Acknowledge(s), during);
  }

  lemma {:induction false} FirstWrong(s: Saver, es: seq<Event>) returns (k: nat)
    requires !AlwaysRight(s, es)
    ensures k < |es| && es[k].DoneReport? && AlwaysRight(s, es[..k])
    ensures !GuardRight(Run(s, es[..k], false), es[k].during)
  {
    var n := |es| - 1;
    if AlwaysRight(s, es[..n]) {
      k := n;
      forall j | 0 <= j < n && es[j].DoneReport?
        ensures GuardRight(Run(s, es[..j], false), es[j].during)
      {
        assert es[..n][..j] == es[..j] && es[..n][j] == es[j];
      }
    } else {
      k := FirstWrong(s, es[..n]);
      assert es[..n][..k] == es[..k] && es[..n][k] == es[k];
    }
  }

  /** Over whole conversations, the code does what is intended exactly when its guard is right at every report. */
  lemma SameExactlyWhileRight(es: seq<Event>)
    ensures Run(Initial(), es, true) == Run(Initial(), es, false) <==> AlwaysRight(Initial(), es)
  {
    if AlwaysRight(Initial(), es) {
      SameWhileRight(Initial(), es);
    } else {
      var k := FirstWrong(Initial(), es);
      var s := Run(Initial(), es[..k], false);
      SameWhileRight(Initial(), es[..k]);
      SoundOverRuns(es[..k]);
      WrongIsApart(s, es[k].during);
      assert es[..k + 1][..k] == es[..k];
      var n := |PerformAll(Acknowledge(s), es[k].during).trace|;
      StaysApart(Initial(), es, k + 1, n);
      ApartDiffer(Run(Initial(), es, true), Run(Initial(), es, false), n);
    }
  }

  /** A client that registers and finishes its first save is sent a request of type -1, and a second one on top of it. */
  lemma CodeBreaksProtocol()
    ensures var es := [Register(true), DoneReport([]), Ask(Query(false))];
            && ProperRun(Initial(), es, true)
            && !FollowsProtocol(Run(Initial(), es, true).trace)
            && Save(NONE, true, StyleNone, true) in Run(Initial(), es, true).trace
  {
    var es := [Register(true), DoneReport([]), Ask(Query(false))];
    var s1 := Next(Initial(), es[0], true);
    var s2 := Next(s1, es[1], true);
    var s3 := Next(s2, es[2], true);
    assert es[..2][..1] == es[..1] && es[..1][..0] == [];
    assert Run(Initial(), es[..0], true) == Initial();
    assert Run(Initial(), es[..1], true) == s1;
    assert Run(Initial(), es[..2], true) == s2;
    assert es[..2] == es[..|es| - 1] && Run(Initial(), es, true) == s3;
    assert ProperRun(Initial(), es[..0], true);
    assert ProperRun(Initial(), es[..1], true);
    assert ProperRun(Initial(), es[..2], true);
    assert s2.trace[3] == Save(NONE, true, StyleNone, true);
    assert s3.trace[3] == s2.trace[3];
  }

  predicate NoCancel(e: Event) {
    && e != Ask(CancelEnd)
    && (e.DoneReport? ==> forall j | 0 <= j < |e.during| :: !e.during[j].CancelEnd?)
  }

  /** A queued global save is never sent: until the logout is cancelled, nothing is. */
  lemma {:induction false} GlobalSaveIsStuck(s: Saver, es: seq<Event>)
    requires s.registered && s.next == SAVE_GLOBAL && ProperRun(s, es, true)
    requires forall k | 0 <= k < |es| :: NoCancel(es[k])
    ensures var t := Run(s, es, true);
            && t.next == SAVE_GLOBAL && t.registered
            && s.trace <= t.trace && (forall k | |s.trace| <= k < |t.trace| :: !t.trace[k].Save?)
  {
    if es != [] {
      var n := |es| - 1;
      GlobalSaveIsStuck(s, es[..n]);
      assert NoCancel(es[n]);
      var t := Run(s, es[..n], true);
      if es[n].DoneReport? {
        QueuedStays(Acknowledge(t), es[n].during);
      }
    }
  }
}
