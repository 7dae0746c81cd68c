/**
 What each SaveYourself request is for. A bystander keeps a book of the reasons
 for which a client is asked to save; request by request, what is sent is what
 the reason calls for.
 */
module SaveRequests {
  import opened Wrappers
  import opened SaveYourself

  datatype Purpose = ForQuery(forced: bool) | ForEnd(save: bool) | ForNewClient | ForCheckpoint

  predicate SavesLocally(kind: int) {
    kind == SAVE_LOCAL || kind == SAVE_BOTH
  }

  predicate SavesGlobally(kind: int) {
    kind == SAVE_GLOBAL || kind == SAVE_BOTH
  }

  /**
   A query lets the client save what belongs to the user, and ask questions
   unless the logout is forced; the end asks no questions, and saves the client's
   own state if the session is to be saved; anything else saves just that state.
   */
  predicate Serves(e: Entry, p: Purpose) {
    e.Save? && IsKind(e.kind) &&
      match p
      case ForQuery(forced) =>
        && SavesGlobally(e.kind) && !SavesLocally(e.kind) && e.shutdown
        && (e.style.StyleAny? <==> !forced) && (e.fast <==> forced)
      case ForEnd(save) =>
        SavesGlobally(e.kind) && (SavesLocally(e.kind) <==> save) && e.shutdown && e.style.StyleNone? && e.fast
      case ForNewClient | ForCheckpoint =>
        SavesLocally(e.kind) && !SavesGlobally(e.kind) && !e.shutdown && e.style.StyleNone? && !e.fast
  }

  function PurposeOf(call: Call): Option<Purpose> {
    match call
    case Query(forced) => Some(ForQuery(forced))
    case End(save, last) => if last then None else Some(ForEnd(save))
    case CancelEnd => None
  }

  /** A request is sent at once, or queued behind the one under way, or dropped behind the queued one. */
  predicate Requested(s: Saver, t: Saver, p: Purpose) {
    if s.next != NONE then t == s
    else if s.current != NONE then
      && t == s.(next := t.next, interact := t.interact) && t.next != NONE && Serves(Message(t.next, t.interact), p)
    else
      && |t.trace| == |s.trace| + 1 && s.trace <= t.trace && Serves(t.trace[|s.trace|], p)
      && t.current == t.trace[|s.trace|].kind && t.next == NONE && t.registered == s.registered
  }

  /** What the session manager's calls come to: the query and the end ask, the last phase and a cancel do not. */
  lemma CallServes(s: Saver, call: Call)
    ensures PurposeOf(call).Some? ==> Requested(s, Perform(s, call), PurposeOf(call).value)
    ensures call == CancelEnd ==> Perform(s, call) == Saver(NONE, NONE, false, s.registered, s.trace + [ShutdownCancelled])
    ensures call.End? && call.last ==> Perform(s, call) == s.(trace := s.trace + [SecondPhase])
  {
  }

  // ----- the bystander's book -----

  /** Whether a request is under way, what is queued, and what was served so far. */
  datatype Book = Book(open: bool, queued: Option<Purpose>, served: seq<Purpose>)

  function Enter(b: Book, p: Purpose): Book {
    if b.queued.Some? then b
    else if b.open then b.(queued := Some(p))
    else b.(open := true, served := b.served + [p])
  }

  function EnterCall(b: Book, call: Call): Book {
    if PurposeOf(call).Some? then Enter(b, PurposeOf(call).value)
    else if call.CancelEnd? then b.(open := false, queued := None)
    else b
  }

  function EnterCalls(b: Book, calls: seq<Call>): Book {
    if calls == [] then b else EnterCall(EnterCalls(b, calls[..|calls| - 1]), calls[|calls| - 1])
  }

  function EnterEvent(b: Book, e: Event): Book {
    match e
    case Register(isNew) => if isNew then b.(open := true, served := b.served + [ForNewClient]) else b
    case Ask(call) => EnterCall(b, call)
    case ClientRequest(shutdown, global) => if !shutdown && !global then Enter(b, ForCheckpoint) else b
    case Phase2Request => b.(open := false)
    case DoneReport(during) =>
      var c := EnterCalls(b.(open := false), during);
      if c.queued.Some? then Enter(c.(queued := None), c.queued.value) else c
  }

  function EnterAll(es: seq<Event>): Book {
    if es == [] then Book(false, None, []) else EnterEvent(EnterAll(es[..|es| - 1]), es[|es| - 1])
  }

  /** The requests that were sent. */
  function Saves(trace: seq<Entry>): seq<Entry> {
    if trace == [] then []
    else
      var k := |trace| - 1;
      Saves(trace[..k]) + if trace[k].Save? then [trace[k]] else []
  }

  predicate AllServe(sent: seq<Entry>, served: seq<Purpose>) {
    |sent| == |served| && forall k | 0 <= k < |sent| :: Serves(sent[k], served[k])
  }

  predicate Matches(b: Book, s: Saver) {
    && (b.open <==> s.current != NONE)
    && (b.queued.Some? <==> s.next != NONE)
    && (b.queued.Some? ==> Serves(Message(s.next, s.interact), b.queued.value))
    && AllServe(Saves(s.trace), b.served)
  }

  lemma SavesNext(trace: seq<Entry>, e: Entry)
    ensures Saves(trace + [e]) == Saves(trace) + if e.Save? then [e] else []
  {
    assert (trace + [e])[..|trace|] == trace;
  }

  lemma EnterMatches(b: Book, s: Saver, kind: int, interact: bool, p: Purpose)
    requires Matches(b, s) && Serves(Message(kind, interact), p)
    ensures Matches(Enter(b, p), Request(s, kind, interact))
  {
    SavesNext(s.trace, Message(kind, interact));
  }

  lemma OtherMatches(b: Book, s: Saver, c: Book, t: Saver, e: Entry)
    requires Matches(b, s) && !e.Save? && t.trace == s.trace + [e] && c.served == b.served
    requires (c.open <==> t.current != NONE)
    requires if c.queued.None? then t.next == NONE
             else c.queued == b.queued && t.next == s.next && t.interact == s.interact
    ensures Matches(c, t)
  {
    SavesNext(s.trace, e);
  }

  lemma CallMatches(b: Book, s: Saver, call: Call)
    requires Matches(b, s)
    ensures Matches(EnterCall(b, call), Perform(s, call))
  {
    match call
    case Query(forced) => EnterMatches(b, s, SAVE_GLOBAL, !forced, ForQuery(forced));
    case End(save, last) =>
      if last {
        OtherMatches(b, s, b, Perform(s, call), SecondPhase);
      } else {
        EnterMatches(b, s, if save then SAVE_BOTH else SAVE_GLOBAL, false, ForEnd(save));
      }
    case CancelEnd => OtherMatches(b, s, EnterCall(b, call), Perform(s, call), ShutdownCancelled);
  }

  lemma {:induction false} CallsMatch(b: Book, s: Saver, calls: seq<Call>)
    requires Matches(b, s)
    ensures Matches(EnterCalls(b, calls), PerformAll(s, calls))
  {
    if calls != [] {
      var k := |calls| - 1;
      CallsMatch(b, s, calls[..k]);
      CallMatches(EnterCalls(b, calls[..k]), PerformAll(s, calls[..k]), calls[k]);
    }
  }

  lemma AcknowledgeMatches(b: Book, s: Saver)
    requires Matches(b, s)
    ensures Matches(b.(open := false), Acknowledge(s))
  {
    var c, t := b.(open := false), s.(current := NONE, trace := s.trace + [GotDone]);
    OtherMatches(b, s, c, t, GotDone);
    if s.current != NONE {
      OtherMatches(c, t, c, Acknowledge(s), SaveComplete);
    } else {
      assert s.trace + [GotDone] + [] == s.trace + [GotDone];
    }
  }

  lemma DoneMatches(b: Book, s: Saver, during: seq<Call>)
    requires Matches(b, s)
    ensures Matches(EnterEvent(b, DoneReport(during)), Intended(s, during))
  {
    AcknowledgeMatches(b, s);
    CallsMatch(b.(open := false), Acknowledge(s), during);
    var c, t := EnterCalls(b.(open := false), during), PerformAll(Acknowledge(s), during);
    if c.queued.Some? {
      EnterMatches(c.(queued := None), t.(next := NONE, interact := true), t.next, t.interact, c.queued.value);
    }
  }

  lemma NewClientMatches(b: Book, s: Saver)
    requires Matches(b, s)
    ensures Matches(EnterEvent(b, Register(true)), Next(s, Register(true), false))
  {
    SavesNext(s.trace, Message(SAVE_LOCAL, false));
  }

  lemma EventMatches(b: Book, s: Saver, e: Event)
    requires Matches(b, s)
    ensures Matches(EnterEvent(b, e), Next(s, e, false))
  {
    match e
    case Register(isNew) => if isNew { NewClientMatches(b, s); }
    case Ask(call) => CallMatches(b, s, call);
    case ClientRequest(shutdown, global) => if !shutdown && !global { EnterMatches(b, s, SAVE_LOCAL, true, ForCheckpoint); }
    case Phase2Request => OtherMatches(b, s, EnterEvent(b, e), Next(s, e, false), GotPhase2Request);
    case DoneReport(during) => DoneMatches(b, s, during);
  }

  lemma {:induction false} BookMatches(es: seq<Event>)
    ensures Matches(EnterAll(es), Run(Initial(), es, false))
  {
    if es != [] {
      var k := |es| - 1;
      BookMatches(es[..k]);
      EventMatches(EnterAll(es[..k]), Run(Initial(), es[..k], false), es[k]);
    }
  }

  /**
   Over whole conversations, every request that is sent is for a reason in the
   book, in that order, and is of the kind that the reason calls for; this is so
   for the code as it is as long as its guard is right.
   */
  lemma EverySaveServes(es: seq<Event>)
    ensures AllServe(Saves(Run(Initial(), es, false).trace), EnterAll(es).served)
    ensures AlwaysRight(Initial(), es) ==> AllServe(Saves(Run(Initial(), es, true).trace), EnterAll(es).served)
  {
    BookMatches(es);
    if AlwaysRight(Initial(), es) {
      SameExactlyWhileRight(es);
    }
  }

  // ----- the reply to a report -----

  predicate AcknowledgedAt(trace: seq<Entry>, k: nat)
    requires k < |trace|
  {
    && (trace[k].SaveComplete? ==> k > 0 && trace[k - 1].GotDone?)
    && (trace[k].GotDone? ==> (Open(trace[..k]) <==> k + 1 < |trace| && trace[k + 1].SaveComplete?))
  }

  /** A report that a request is done is acknowledged at once, and one without a request is not. */
  predicate Acknowledged(trace: seq<Entry>) {
    forall k | 0 <= k < |trace| :: AcknowledgedAt(trace, k)
  }

  lemma OtherEntered(trace: seq<Entry>, e: Entry)
    requires Acknowledged(trace) && !e.GotDone? && !e.SaveComplete?
    ensures Acknowledged(trace + [e])
  {
    var more := trace + [e];
    forall k | 0 <= k < |more|
      ensures AcknowledgedAt(more, k)
    {
      if k < |trace| {
        assert AcknowledgedAt(trace, k);
        assert more[..k] == trace[..k];
      }
    }
  }

  lemma ReportEntered(s: Saver)
    requires Acknowledged(s.trace) && (Open(s.trace) <==> s.current != NONE)
    ensures Acknowledged(Acknowledge(s).trace)
  {
    var n, more := |s.trace|, Acknowledge(s).trace;
    forall k | 0 <= k < |more|
      ensures AcknowledgedAt(more, k)
    {
      if k < n {
        assert AcknowledgedAt(s.trace, k);
        assert more[..k] == s.trace[..k];
      } else if k == n {
        assert more[..n] == s.trace;
      }
    }
  }

  lemma {:induction false} CallsEntered(s: Saver, calls: seq<Call>)
    requires Acknowledged(s.trace)
    ensures Acknowledged(PerformAll(s, calls).trace)
  {
    if calls != [] {
      var k := |calls| - 1;
      CallsEntered(s, calls[..k]);
      CallEntered(PerformAll(s, calls[..k]), calls[k]);
    }
  }

  lemma RequestEntered(s: Saver, kind: int, interact: bool)
    requires Acknowledged(s.trace)
    ensures Acknowledged(Request(s, kind, interact).trace)
  {
    OtherEntered(s.trace, Message(kind, interact));
  }

  lemma CallEntered(s: Saver, call: Call)
    requires Acknowledged(s.trace)
    ensures Acknowledged(Perform(s, call).trace)
  {
    match call
    case Query(forced) => RequestEntered(s, SAVE_GLOBAL, !forced);
    case End(save, last) =>
      OtherEntered(s.trace, SecondPhase);
      RequestEntered(s, if save then SAVE_BOTH else SAVE_GLOBAL, false);
    case CancelEnd => OtherEntered(s.trace, ShutdownCancelled);
  }

  lemma EventEntered(s: Saver, e: Event)
    requires Acknowledged(s.trace) && (Open(s.trace) <==> s.current != NONE)
    ensures Acknowledged(Next(s, e, false).trace)
  {
    match e
    case Register(isNew) => OtherEntered(s.trace, Message(SAVE_LOCAL, false));
    case Ask(call) => CallEntered(s, call);
    case ClientRequest(shutdown, global) => RequestEntered(s, SAVE_LOCAL, true);
    case Phase2Request => OtherEntered(s.trace, GotPhase2Request);
    case DoneReport(during) =>
      var t := PerformAll(Acknowledge(s), during);
      ReportEntered(s);
      CallsEntered(Acknowledge(s), during);
      RequestEntered(t.(next := NONE, interact := true), t.next, t.interact);
  }

  /** Over whole conversations: exactly the reports that close a request are acknowledged, each at once. */
  lemma {:induction false} ReportsAcknowledged(es: seq<Event>)
    requires ProperRun(Initial(), es, false)
    ensures Acknowledged(Run(Initial(), es, false).trace)
  {
    if es != [] {
      var k := |es| - 1;
      ReportsAcknowledged(es[..k]);
      ProtocolOverRuns(es[..k]);
      EventEntered(Run(Initial(), es[..k], false), es[k]);
    }
  }
}
