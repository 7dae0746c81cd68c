/**
 Command lines: an XSMP client's argument list is written as one line for a
 desktop file, and the shell splits that line again when it is run.
 */
module CommandLine {
  import opened Wrappers

  // ----- writing -----

  const QUOTE := '\''

  /** Letters, digits and a few marks need no quoting. */
  predicate IsPlain(c: char) {
    || 'a' <= c <= 'z' || 'A' <= c <= 'Z' || '0' <= c <= '9'
    || c == '-' || c == '_' || c == '=' || c == ':' || c == '.' || c == '/'
  }

  predicate AllPlain(arg: string) {
    forall k | 0 <= k < |arg| :: IsPlain(arg[k])
  }

  /** The source writes three quotes for a quote: the escape in its string literal is the literal's own. */
  function Escaped(arg: string): string {
    if arg == [] then []
    else
      var k := |arg| - 1;
      Escaped(arg[..k]) + if arg[k] == QUOTE then [QUOTE, QUOTE, QUOTE] else [arg[k]]
  }

  function Word(arg: string): string {
    if AllPlain(arg) then arg else [QUOTE] + Escaped(arg) + [QUOTE]
  }

  function Command(args: seq<string>): string {
    if args == [] then []
    else
      var k := |args| - 1;
      Command(args[..k]) + (if k > 0 then [' '] else []) + Word(args[k])
  }

  // ----- splitting, by the quoting rules of the shell (section 2.2 of POSIX XCU) -----

  datatype Mode = Bare | Single | Double | Escape | DoubleEscape | Comment

  /** `word` is the word begun, if any; `blank` says that a comment may start here. */
  datatype Scanner = Scanner(mode: Mode, word: Option<string>, blank: bool, words: seq<string>)

  function Start(): Scanner {
    Scanner(Bare, None, true, [])
  }

  function Grown(s: Scanner, text: string): Scanner {
    s.(word := Some((if s.word.Some? then s.word.value else []) + text), blank := false)
  }

  function EndWord(s: Scanner): Scanner {
    s.(word := None, blank := true, words := s.words + if s.word.Some? then [s.word.value] else [])
  }

  function Feed(s: Scanner, c: char): Scanner {
    match s.mode
    case Bare =>
      if c == ' ' || c == '\t' || c == '\n' then EndWord(s)
      else if c == QUOTE then Grown(s, []).(mode := Single)
      else if c == '"' then Grown(s, []).(mode := Double)
      else if c == '\\' then s.(mode := Escape, blank := false)
      else if c == '#' && s.blank then s.(mode := Comment)
      else Grown(s, [c])
    case Single => if c == QUOTE then s.(mode := Bare) else Grown(s, [c])
    case Double =>
      if c == '"' then s.(mode := Bare)
      else if c == '\\' then s.(mode := DoubleEscape)
      else Grown(s, [c])
    case Escape => if c == '\n' then s.(mode := Bare) else Grown(s, [c]).(mode := Bare)
    case DoubleEscape =>
      if c == '\n' then s.(mode := Double)
      else if c == '$' || c == '`' || c == '"' || c == '\\' then Grown(s, [c]).(mode := Double)
      else Grown(s, ['\\', c]).(mode := Double)
    case Comment => if c == '\n' then s.(mode := Bare, blank := true) else s
  }

  function FeedAll(s: Scanner, text: string): Scanner {
    if text == [] then s else Feed(FeedAll(s, text[..|text| - 1]), text[|text| - 1])
  }

  /** An unfinished quotation is an error, and so is a line without words. */
  function Finish(s: Scanner): Option<seq<string>> {
    if s.mode != Bare && s.mode != Comment then None
    else
      var words := EndWord(s).words;
      if words == [] then None else Some(words)
  }

  function Split(line: string): Option<seq<string>> {
    Finish(FeedAll(Start(), line))
  }

  lemma {:induction false} FeedConcat(s: Scanner, a: string, b: string)
    ensures FeedAll(s, a + b) == FeedAll(FeedAll(s, a), b)
  {
    if b == [] {
      assert a + b == a;
    } else {
      var k := |b| - 1;
      FeedConcat(s, a, b[..k]);
      assert (a + b)[..|a + b| - 1] == a + b[..k];
    }
  }

  // ----- lines without quotes in their arguments come back -----

  predicate QuoteFree(arg: string) {
    forall k | 0 <= k < |arg| :: arg[k] != QUOTE
  }

  lemma {:induction false} FeedPlain(s: Scanner, arg: string)
    requires s.mode == Bare && s.word.None? && AllPlain(arg) && arg != []
    ensures FeedAll(s, arg) == s.(word := Some(arg), blank := false)
  {
    var k := |arg| - 1;
    assert IsPlain(arg[k]);
    if k == 0 {
      assert arg[..0] == [] && FeedAll(s, arg[..0]) == s;
      assert [] + [arg[0]] == arg;
    } else {
      FeedPlain(s, arg[..k]);
      assert arg[..k] + [arg[k]] == arg;
    }
  }

  lemma {:induction false} EscapedIsItself(arg: string)
    requires QuoteFree(arg)
    ensures Escaped(arg) == arg
  {
    if arg != [] {
      EscapedIsItself(arg[..|arg| - 1]);
    }
  }

  lemma {:induction false} FeedQuoted(s: Scanner, arg: string)
    requires s.mode == Single && s.word == Some([]) && !s.blank && QuoteFree(arg)
    ensures FeedAll(s, arg) == s.(word := Some(arg))
  {
    if arg != [] {
      var k := |arg| - 1;
      FeedQuoted(s, arg[..k]);
      assert arg[..k] + [arg[k]] == arg;
      assert FeedAll(s, arg) == Grown(s.(word := Some(arg[..k])), [arg[k]]);
    }
  }

  lemma FeedWord(s: Scanner, arg: string)
    requires s.mode == Bare && s.word.None? && QuoteFree(arg) && arg != []
    ensures FeedAll(s, Word(arg)) == s.(word := Some(arg), blank := false)
  {
    if AllPlain(arg) {
      FeedPlain(s, arg);
    } else {
      var t := Feed(s, QUOTE);
      assert FeedAll(s, [QUOTE]) == t by {
        assert [QUOTE][..0] == [];
      }
      assert t.word.value == [];
      EscapedIsItself(arg);
      FeedQuoted(t, arg);
      FeedConcat(s, [QUOTE], Escaped(arg));
      var line := [QUOTE] + Escaped(arg) + [QUOTE];
      assert line[..|line| - 1] == [QUOTE] + Escaped(arg);
    }
  }

  function NonEmpty(args: seq<string>): seq<string> {
    if args == [] then []
    else
      var k := |args| - 1;
      NonEmpty(args[..k]) + if args[k] == [] then [] else [args[k]]
  }

  lemma {:induction false} FeedCommand(args: seq<string>)
    requires forall k | 0 <= k < |args| :: QuoteFree(args[k])
    ensures var s := FeedAll(Start(), Command(args));
            s.mode == Bare && EndWord(s).words == NonEmpty(args)
  {
    if args != [] {
      var k := |args| - 1;
      FeedCommand(args[..k]);
      var s := FeedAll(Start(), Command(args[..k]));
      var gap := if k > 0 then [' '] else [];
      var t := FeedAll(s, gap);
      FeedConcat(Start(), Command(args[..k]), gap);
      FeedConcat(Start(), Command(args[..k]) + gap, Word(args[k]));
      if k == 0 {
        assert args[..0] == [] && s == Start() && t == s;
      } else {
        assert gap[..0] == [] && t == EndWord(s);
      }
      assert t.mode == Bare && t.word.None? && t.words == NonEmpty(args[..k]);
      if args[k] == [] {
        assert Word(args[k]) == [];
        assert t.words + [] == t.words;
      } else {
        FeedWord(t, args[k]);
      }
    }
  }

  /** What comes back are the arguments that are not empty. */
  lemma SplitsIntoNonEmpty(args: seq<string>)
    requires forall k | 0 <= k < |args| :: QuoteFree(args[k])
    ensures Split(Command(args)) == if NonEmpty(args) == [] then None else Some(NonEmpty(args))
  {
    FeedCommand(args);
  }

  lemma {:induction false} NonEmptyLength(args: seq<string>)
    ensures |NonEmpty(args)| <= |args|
    ensures NonEmpty(args) == args <==> forall k | 0 <= k < |args| :: args[k] != []
  {
    if args != [] {
      var k := |args| - 1;
      NonEmptyLength(args[..k]);
      assert args == args[..k] + [args[k]];
      assert forall j | 0 <= j < k :: args[..k][j] == args[j];
      if args[k] == [] {
        assert |NonEmpty(args)| < |args|;
      } else if NonEmpty(args) == args {
        assert NonEmpty(args[..k]) == args[..k];
      }
    }
  }

  // ----- lines with quotes in their arguments never do -----

  predicate IsMark(c: char) {
    c == '"' || c == '\\'
  }

  /** Double quotes and backslashes: the shell never invents one, and has to use one up to produce a quote. */
  function Marks(text: string): nat {
    if text == [] then 0 else Marks(text[..|text| - 1]) + if IsMark(text[|text| - 1]) then 1 else 0
  }

  function Total(words: seq<string>): nat {
    if words == [] then 0 else Total(words[..|words| - 1]) + Marks(words[|words| - 1])
  }

  lemma {:induction false} MarksConcat(a: string, b: string)
    ensures Marks(a + b) == Marks(a) + Marks(b)
  {
    if b == [] {
      assert a + b == a;
    } else {
      MarksConcat(a, b[..|b| - 1]);
      assert (a + b)[..|a + b| - 1] == a + b[..|b| - 1];
    }
  }

  function Begun(s: Scanner): string {
    if s.word.Some? then s.word.value else []
  }

  predicate Clean(s: Scanner) {
    QuoteFree(Begun(s)) && forall k | 0 <= k < |s.words| :: QuoteFree(s.words[k])
  }

  function Pending(s: Scanner): nat {
    if s.mode.Escape? || s.mode.DoubleEscape? then 1 else 0
  }

  /** `n` marks have been read; those not found in the words so far have been used up. */
  predicate Balanced(s: Scanner, n: nat) {
    var held := Total(s.words) + Marks(Begun(s)) + Pending(s);
    held <= n && (s.mode.Double? || s.mode.DoubleEscape? || !Clean(s) ==> held < n)
  }

  lemma GrownMarks(s: Scanner, text: string)
    ensures Marks(Begun(Grown(s, text))) == Marks(Begun(s)) + Marks(text)
    ensures Clean(s) && QuoteFree(text) ==> Clean(Grown(s, text))
  {
    MarksConcat(Begun(s), text);
  }

  lemma EndWordMarks(s: Scanner)
    ensures Total(EndWord(s).words) == Total(s.words) + Marks(Begun(s))
    ensures Clean(s) ==> Clean(EndWord(s))
  {
    if s.word.Some? {
      var more := s.words + [s.word.value];
      assert more[..|more| - 1] == s.words;
    } else {
      assert s.words + [] == s.words;
    }
  }

  lemma MarksOfOne(c: char)
    ensures Marks([c]) == if IsMark(c) then 1 else 0
  {
    assert [c][..0] == [];
  }

  lemma GrownBalanced(s: Scanner, n: nat, c: char, mode: Mode)
    requires !mode.Escape? && !mode.DoubleEscape?
    requires var held := Total(s.words) + Marks(Begun(s));
             held <= n && (mode.Double? || !Clean(s) || c == QUOTE ==> held < n)
    ensures Balanced(Grown(s, [c]).(mode := mode), n + if IsMark(c) then 1 else 0)
  {
    GrownMarks(s, [c]);
    MarksOfOne(c);
  }

  lemma BareBalanced(s: Scanner, n: nat, c: char)
    requires s.mode.Bare? && Balanced(s, n)
    ensures Balanced(Feed(s, c), n + if IsMark(c) then 1 else 0)
  {
    if c == ' ' || c == '\t' || c == '\n' {
      EndWordMarks(s);
    } else if c == QUOTE || c == '"' {
      GrownMarks(s, []);
    } else if c != '\\' && !(c == '#' && s.blank) {
      GrownBalanced(s, n, c, Bare);
    }
  }

  lemma MarksOfEscape(c: char)
    ensures Marks(['\\', c]) == 1 + if IsMark(c) then 1 else 0
  {
    assert ['\\', c] == ['\\'] + [c];
    MarksConcat(['\\'], [c]);
    MarksOfOne('\\');
    MarksOfOne(c);
  }

  lemma DoubleEscapeBalanced(s: Scanner, n: nat, c: char)
    requires s.mode.DoubleEscape? && Balanced(s, n)
    ensures Balanced(Feed(s, c), n + if IsMark(c) then 1 else 0)
  {
    if c == '$' || c == '`' || c == '"' || c == '\\' {
      GrownBalanced(s, n, c, Double);
    } else if c != '\n' {
      GrownMarks(s, ['\\', c]);
      MarksOfEscape(c);
    }
  }

  lemma FeedBalanced(s: Scanner, n: nat, c: char)
    requires Balanced(s, n)
    ensures Balanced(Feed(s, c), n + if IsMark(c) then 1 else 0)
  {
    match s.mode
    case Bare => BareBalanced(s, n, c);
    case Single => if c != QUOTE { GrownBalanced(s, n, c, Single); }
    case Double => if !IsMark(c) { GrownBalanced(s, n, c, Double); }
    case Escape => if c != '\n' { GrownBalanced(s, n, c, Bare); }
    case DoubleEscape => DoubleEscapeBalanced(s, n, c);
    case Comment =>
  }

  lemma {:induction false} FeedAllBalanced(text: string)
    ensures Balanced(FeedAll(Start(), text), Marks(text))
  {
    if text != [] {
      FeedAllBalanced(text[..|text| - 1]);
      FeedBalanced(FeedAll(Start(), text[..|text| - 1]), Marks(text[..|text| - 1]), text[|text| - 1]);
    }
  }

  /** Splitting loses a mark for certain when a quote comes out. */
  lemma SplitMarks(line: string)
    requires Split(line).Some?
    ensures var words := Split(line).value;
            && Total(words) <= Marks(line)
            && ((exists k :: 0 <= k < |words| && !QuoteFree(words[k])) ==> Total(words) < Marks(line))
  {
    FeedAllBalanced(line);
    EndWordMarks(FeedAll(Start(), line));
  }

  lemma {:induction false} EscapedMarks(arg: string)
    ensures Marks(Escaped(arg)) == Marks(arg)
  {
    if arg != [] {
      var k := |arg| - 1;
      EscapedMarks(arg[..k]);
      var piece := if arg[k] == QUOTE then [QUOTE, QUOTE, QUOTE] else [arg[k]];
      MarksConcat(Escaped(arg[..k]), piece);
      if arg[k] == QUOTE {
        QuotesAreNoMarks();
      } else {
        assert [arg[k]][..0] == [];
      }
    }
  }

  lemma QuotesAreNoMarks()
    ensures Marks([QUOTE]) == 0 && Marks([QUOTE, QUOTE, QUOTE]) == 0
  {
    MarksOfOne(QUOTE);
    MarksConcat([QUOTE], [QUOTE]);
    MarksConcat([QUOTE] + [QUOTE], [QUOTE]);
    assert [QUOTE] + [QUOTE] + [QUOTE] == [QUOTE, QUOTE, QUOTE];
  }

  lemma WordMarks(arg: string)
    ensures Marks(Word(arg)) == Marks(arg)
  {
    if !AllPlain(arg) {
      EscapedMarks(arg);
      QuotesAreNoMarks();
      MarksConcat([QUOTE], Escaped(arg));
      MarksConcat([QUOTE] + Escaped(arg), [QUOTE]);
    }
  }

  lemma {:induction false} CommandMarks(args: seq<string>)
    ensures Marks(Command(args)) == Total(args)
  {
    if args != [] {
      var k := |args| - 1;
      CommandMarks(args[..k]);
      WordMarks(args[k]);
      var gap := if k > 0 then [' '] else [];
      assert Marks(gap) == 0 by {
        assert [' '][..0] == [];
      }
      MarksConcat(Command(args[..k]), gap);
      MarksConcat(Command(args[..k]) + gap, Word(args[k]));
    }
  }

  /** Splitting a written line gives the arguments back exactly when there are some, none is empty and none holds a quote. */
  lemma RoundTripExactlyWhen(args: seq<string>)
    ensures Split(Command(args)) == Some(args) <==>
              args != [] && forall k | 0 <= k < |args| :: args[k] != [] && QuoteFree(args[k])
  {
    if forall k | 0 <= k < |args| :: QuoteFree(args[k]) {
      SplitsIntoNonEmpty(args);
      NonEmptyLength(args);
    } else if Split(Command(args)) == Some(args) {
      SplitMarks(Command(args));
      CommandMarks(args);
      assert false;
    }
  }

  // ----- two lines that are not split back -----

  function ModeAt(line: string, k: nat): Mode
    requires k <= |line|
  {
    FeedAll(Start(), line[..k]).mode
  }

  /** Among plain characters, a quote begins or ends a quotation. */
  lemma ModeNext(line: string, k: nat, mode: Mode)
    requires k < |line| && ModeAt(line, k) == mode && (mode == Bare || mode == Single)
    requires line[k] == QUOTE || IsPlain(line[k])
    ensures ModeAt(line, k + 1) == if line[k] != QUOTE then mode else if mode == Bare then Single else Bare
  {
    assert line[..k + 1][..k] == line[..k];
  }

  lemma EscapedNext(arg: string, k: nat)
    requires k < |arg|
    ensures Escaped(arg[..k + 1]) == Escaped(arg[..k]) + if arg[k] == QUOTE then [QUOTE, QUOTE, QUOTE] else [arg[k]]
  {
    assert arg[..k + 1][..k] == arg[..k];
  }

  lemma ItsEscaped()
    ensures Escaped("it's") == "it'''s"
  {
    var arg := "it's";
    assert arg[..0] == [] && arg[..4] == arg;
    EscapedNext(arg, 0);
    EscapedNext(arg, 1);
    EscapedNext(arg, 2);
    EscapedNext(arg, 3);
  }

  lemma ItsCommand()
    ensures Command(["it's"]) == "\'it\'\'\'s\'"
  {
    var args := ["it's"];
    ItsEscaped();
    assert !IsPlain("it's"[2]);
    assert args[..0] == [] && Command(args) == [] + [] + Word(args[0]);
  }

  lemma QuotedPair(line: string)
    requires |line| >= 4 && line[0] == QUOTE && IsPlain(line[1]) && IsPlain(line[2]) && line[3] == QUOTE
    ensures ModeAt(line, 4) == Bare
  {
    assert line[..0] == [];
    ModeNext(line, 0, Bare);
    ModeNext(line, 1, Single);
    ModeNext(line, 2, Single);
    ModeNext(line, 3, Single);
  }

  lemma QuoteLeftOpen(line: string)
    requires |line| == 8 && ModeAt(line, 4) == Bare
    requires line[4] == QUOTE && line[5] == QUOTE && IsPlain(line[6]) && line[7] == QUOTE
    ensures ModeAt(line, 8) == Single
  {
    ModeNext(line, 4, Bare);
    ModeNext(line, 5, Single);
    ModeNext(line, 6, Bare);
    ModeNext(line, 7, Bare);
  }

  /** The line written for an argument with a quote does not even end its quotation. */
  lemma QuoteIsLost()
    ensures Command(["it's"]) == "\'it\'\'\'s\'" && Split(Command(["it's"])) == None
  {
    var line := "\'it\'\'\'s\'";
    ItsCommand();
    assert line[..8] == line;
    QuotedPair(line);
    QuoteLeftOpen(line);
  }

  /** An empty argument leaves no trace in the line. */
  lemma EmptyIsLost()
    ensures Split(Command(["mail", ""])) == Some(["mail"])
  {
    var args := ["mail", ""];
    SplitsIntoNonEmpty(args);
    assert args[..1] == ["mail"] && args[..1][..0] == [];
    assert NonEmpty(["mail"]) == NonEmpty([]) + ["mail"];
    assert NonEmpty(args) == ["mail"];
  }
}
