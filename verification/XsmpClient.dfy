/** An XSMP client as the session manager keeps it: the SaveYourself fields and the property array, updated in place. */
module XsmpClient {
  import opened Wrappers
  import opened SaveYourself
  import opened XsmpProperties
  import CommandLine
  import SaveRequests

  class Client {
    var connected: bool
    var registered: bool
    var currentSaveYourself: int
    var nextSaveYourself: int
    var nextAllowInteract: bool
    var props: seq<Prop>
    ghost var trace: seq<Entry>

    ghost function Saving(): Saver
      reads this
    {
      Saver(currentSaveYourself, nextSaveYourself, nextAllowInteract, registered, trace)
    }

    constructor (connected: bool)
      ensures Saving() == SaveYourself.Initial() && props == [] && this.connected == connected
    {
      this.connected := connected;
      registered := false;
      currentSaveYourself, nextSaveYourself, nextAllowInteract := NONE, NONE, false;
      props := [];
      trace := [];
    }

    // ----- saving -----

    method DoSaveYourself(kind: int, allowInteract: bool)
      modifies this`currentSaveYourself, this`nextSaveYourself, this`nextAllowInteract, this`trace
      ensures Saving() == Request(old(Saving()), kind, allowInteract)
    {
      if nextSaveYourself != NONE {
        return;
      } else if currentSaveYourself != NONE {
        nextSaveYourself := kind;
        nextAllowInteract := allowInteract;
      } else {
        currentSaveYourself := kind;
        nextSaveYourself := NONE;
        nextAllowInteract := false;
        if kind == SAVE_LOCAL {
          trace := trace + [Save(SAVE_LOCAL, false, StyleNone, false)];
        } else if !allowInteract {
          trace := trace + [Save(kind, true, StyleNone, true)];
        } else {
          trace := trace + [Save(kind, true, StyleAny, false)];
        }
      }
    }

    method QueryEndSession(forceful: bool) returns (ok: bool)
      modifies this`currentSaveYourself, this`nextSaveYourself, this`nextAllowInteract, this`trace
      ensures ok == connected
      ensures Saving() == if ok then Perform(old(Saving()), Query(forceful)) else old(Saving())
      ensures ok ==> SaveRequests.Requested(old(Saving()), Saving(), SaveRequests.ForQuery(forceful))
    {
      if connected {
        DoSaveYourself(SAVE_GLOBAL, !forceful);
      }
      ok := connected;
    }

    method EndSession(save: bool, last: bool) returns (ok: bool)
      modifies this`currentSaveYourself, this`nextSaveYourself, this`nextAllowInteract, this`trace
      ensures ok == connected
      ensures Saving() == if ok then Perform(old(Saving()), End(save, last)) else old(Saving())
      ensures ok && !last ==> SaveRequests.Requested(old(Saving()), Saving(), SaveRequests.ForEnd(save))
    {
      if connected {
        if last {
          trace := trace + [SecondPhase];
        } else {
          // It is too late to interact: the query gave the chance.
          DoSaveYourself(if save then SAVE_BOTH else SAVE_GLOBAL, false);
        }
      }
      ok := connected;
    }

    method CancelEndSession() returns (ok: bool)
      modifies this`currentSaveYourself, this`nextSaveYourself, this`nextAllowInteract, this`trace
      ensures ok == connected
      ensures Saving() == if ok then Perform(old(Saving()), CancelEnd) else old(Saving())
    {
      if connected {
        trace := trace + [ShutdownCancelled];
        currentSaveYourself, nextSaveYourself, nextAllowInteract := NONE, NONE, false;
      }
      ok := connected;
    }

    /** The session manager's own calls, made from within the report that a client is done. */
    method Answer(calls: seq<Call>)
      requires connected
      modifies this`currentSaveYourself, this`nextSaveYourself, this`nextAllowInteract, this`trace
      ensures Saving() == PerformAll(old(Saving()), calls)
    {
      for k := 0 to |calls|
        invariant Saving() == PerformAll(old(Saving()), calls[..k])
      {
        assert calls[..k + 1][..k] == calls[..k];
        var ok: bool;
        match calls[k] {
          case Query(forceful) => ok := QueryEndSession(forceful);
          case End(save, last) => ok := EndSession(save, last);
          case CancelEnd => ok := CancelEndSession();
        }
      }
      assert calls[..|calls|] == calls;
    }

    method OnRegister(isNew: bool)
      modifies this`registered, this`currentSaveYourself, this`trace
      ensures Saving() == Next(old(Saving()), Register(isNew), true)
    {
      registered := true;
      if isNew {
        trace := trace + [Save(SAVE_LOCAL, false, StyleNone, false)];
        currentSaveYourself := SAVE_LOCAL;
      }
    }

    method OnSaveYourselfRequest(shutdown: bool, global: bool) returns (logout: bool)
      modifies this`currentSaveYourself, this`nextSaveYourself, this`nextAllowInteract, this`trace
      ensures logout == (shutdown && global)
      ensures Saving() == Next(old(Saving()), ClientRequest(shutdown, global), true)
    {
      logout := shutdown && global;
      if !shutdown && !global {
        DoSaveYourself(SAVE_LOCAL, true);
      }
    }

    method OnPhase2Request()
      modifies this`currentSaveYourself, this`trace
      ensures Saving() == Next(old(Saving()), Phase2Request, true)
    {
      trace := trace + [GotPhase2Request];
      currentSaveYourself := NONE;
    }

    method OnSaveYourselfDone(during: seq<Call>)
      requires connected
      modifies this`currentSaveYourself, this`nextSaveYourself, this`nextAllowInteract, this`trace
      ensures Saving() == Done(old(Saving()), during)
    {
      trace := trace + [GotDone];
      if currentSaveYourself != NONE {
        trace := trace + [SaveComplete];
        currentSaveYourself := NONE;
      }
      assert Saving() == Acknowledge(old(Saving()));
      Answer(during);
      if nextSaveYourself != 0 {
        var kind, allowInteract := nextSaveYourself, nextAllowInteract;
        nextSaveYourself := NONE;
        nextAllowInteract := true;
        DoSaveYourself(kind, allowInteract);
      }
    }

    // ----- properties -----

    method FindProperty(name: string) returns (k: nat)
      ensures k == IndexOf(props, name)
    {
      k := 0;
      while k < |props| && props[k].name != name
        invariant k <= |props|
        invariant forall j | 0 <= j < k :: props[j].name != name
      {
        k := k + 1;
      }
    }

    method DeleteProperty(name: string)
      modifies this`props
      ensures props == Delete(old(props), name)
    {
      var k := FindProperty(name);
      if k < |props| {
        props := props[k := props[|props| - 1]];
        props := props[..|props| - 1];
      }
    }

    method SetProperties(batch: seq<Prop>)
      modifies this`props
      ensures props == Serve(old(props), XsmpProperties.SetProperties(batch))
    {
      for i := 0 to |batch|
        invariant props == PutAll(old(props), batch[..i])
      {
        assert batch[..i + 1][..i] == batch[..i];
        DeleteProperty(batch[i].name);
        props := props + [batch[i]];
      }
      assert batch[..|batch|] == batch;
    }

    method DeleteProperties(names: seq<string>)
      modifies this`props
      ensures props == Serve(old(props), XsmpProperties.DeleteProperties(names))
    {
      for i := 0 to |names|
        invariant props == DeleteAll(old(props), names[..i])
      {
        assert names[..i + 1][..i] == names[..i];
        DeleteProperty(names[i]);
      }
      assert names[..|names|] == names;
    }

    /** Values are C strings, so none holds a NUL character. */
    static method PropToCommand(vals: seq<string>) returns (line: string)
      requires forall i | 0 <= i < |vals| :: '\0' !in vals[i]
      ensures line == CommandLine.Command(vals)
    {
      line := [];
      for i := 0 to |vals|
        invariant line == CommandLine.Command(vals[..i])
      {
        assert vals[..i + 1][..i] == vals[..i];
        var val := vals[i];
        var needQuotes := NeedsQuotes(val);
        if i > 0 {
          line := line + [' '];
        }
        if !needQuotes {
          line := line + val;
        } else {
          var quoted := QuotedWord(val);
          line := line + quoted;
        }
      }
      assert vals[..|vals|] == vals;
    }

    static method QuotedWord(val: string) returns (word: string)
      ensures word == ['\''] + CommandLine.Escaped(val) + ['\'']
    {
      word := ['\''];
      for j := 0 to |val|
        invariant word == ['\''] + CommandLine.Escaped(val[..j])
      {
        assert val[..j + 1][..j] == val[..j];
        if val[j] == '\'' {
          word := word + ['\'', '\'', '\''];
        } else {
          word := word + [val[j]];
        }
      }
      assert val[..|val|] == val;
      word := word + ['\''];
    }

    static method NeedsQuotes(val: string) returns (needed: bool)
      ensures needed == !CommandLine.AllPlain(val)
    {
      for j := 0 to |val|
        invariant forall k | 0 <= k < j :: CommandLine.IsPlain(val[k])
      {
        if !CommandLine.IsPlain(val[j]) {
          return true;
        }
      }
      return false;
    }

    /** The command that restarts the client, or undoes its saved state: kept only as a list property. */
    method GetCommand(name: string) returns (line: Option<string>)
      requires forall k, i | 0 <= k < |props| && 0 <= i < |props[k].vals| :: '\0' !in props[k].vals[i]
      ensures var k := IndexOf(props, name);
              line == if k < |props| && props[k].kind == "LISTofARRAY8" then Some(CommandLine.Command(props[k].vals))
                      else None
    {
      var k := FindProperty(name);
      if k == |props| || props[k].kind != "LISTofARRAY8" {
        return None;
      }
      var text := PropToCommand(props[k].vals);
      line := Some(text);
    }
  }
}
