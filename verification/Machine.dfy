/** The agent machine around the tape: user turns, rollback and compaction. */
module Machine {
  import opened Bytes
  import opened Messages
  import opened Retention
  import T = Tape

  /** `continuation` is the provider response the next request may continue from. */
  datatype State = State(tape: T.Contents, ordinal: nat, activeTask: bool, continuation: Option<string>)

  datatype RollbackOutcome = RollbackOutcome(removedTurns: nat, removedMessages: nat)

  // ----------------------------------------------------------- specification

  function Turns(control: Control, messages: seq<Message>): nat
  {
    if messages == [] then 0
    else Turns(control, messages[..|messages| - 1]) + if IsTurn(control, messages[|messages| - 1]) then 1 else 0
  }

  /** Where the last `n` turns start: the n-th turn from the end, or 0 if there are fewer. */
  function Cut(control: Control, messages: seq<Message>, n: nat): (c: nat)
    requires n > 0
    ensures c <= |messages|
  {
    if messages == [] then 0
    else
      var front, last := messages[..|messages| - 1], IsTurn(control, messages[|messages| - 1]);
      if last && n == 1 then |front| else Cut(control, front, if last then n - 1 else n)
  }

  function RolledBack(control: Control, s: State, n: nat): State
  {
    if n == 0 || Turns(control, s.tape.messages) == 0 then s
    else
      var kept := s.tape.messages[..Cut(control, s.tape.messages, n)];
      State(s.tape.(messages := kept, summary := None), s.ordinal, s.activeTask && kept != [], None)
  }

  // ---------------------------------------------------------------- the class

  /** `control` recognises the control parts the machine itself writes. */
  class Machine {
    const control: Control
    const tape: T.Tape
    var ordinal: nat
    var activeTask: bool
    var continuation: Option<string>

    ghost function Value(): State
      reads this, tape
    {
      State(tape.Value(), ordinal, activeTask, continuation)
    }

    constructor (control: Control, tape: T.Tape)
      ensures this.control == control && this.tape == tape
      ensures Value() == State(tape.Value(), 0, false, None)
    {
      this.control, this.tape, ordinal, activeTask, continuation := control, tape, 0, false, None;
    }

    method AddUserMessage(parts: seq<ContentPart>, countAsTurn: bool)
      requires tape.Valid() && ordinal < U64_LIMIT
      modifies tape, `ordinal
      ensures tape.Valid()
      ensures Value() == Step(tape.control, control, old(Value()), AddUser(parts, countAsTurn))
    {
      hide RetentionStart, MessageTokens, T.Rendered, T.SummaryMessage, T.SummaryPart;
      if countAsTurn && ordinal + 1 < U64_LIMIT { ordinal := ordinal + 1; }
      tape.Push(User(parts));
    }

    method RollbackLastTurns(requested: nat) returns (outcome: RollbackOutcome)
      requires tape.Valid() && requested < U32_LIMIT
      modifies this, tape
      ensures tape.Valid() && Value() == RolledBack(control, old(Value()), requested)
      ensures var before := old(tape.messages);
              var k := Turns(control, before);
              && outcome.removedTurns == (if requested < k then requested else k)
              && outcome.removedMessages == |before| - |tape.messages|
    {
      hide RetentionStart, MessageTokens, T.Rendered, T.SummaryMessage, T.SummaryPart;
      if requested == 0 { return RollbackOutcome(0, 0); }
      var messages := tape.messages;
      if messages == [] { return RollbackOutcome(0, 0); }
      var seen, from := 0, |messages|;
      var i := |messages|;
      assert messages[..|messages|] == messages;
      while i > 0
        invariant 0 <= i == from <= |messages| && seen < requested
        invariant seen + Turns(control, messages[..i]) == Turns(control, messages)
        invariant Cut(control, messages[..i], requested - seen) == Cut(control, messages, requested)
      {
        i := i - 1;
        assert messages[..i + 1][..i] == messages[..i];
        from := i;
        if IsTurn(control, messages[i]) {
          seen := seen + 1;
          if seen >= requested { break; }
        }
      }
      if seen == 0 { return RollbackOutcome(0, 0); }
      tape.Replace(messages[..from]);
      tape.ClearSummary();
      continuation := None;
      if tape.messages == [] { activeTask := false; }
      return RollbackOutcome(seen, |messages| - from);
    }

    method CompactTape(summary: string, keep: nat)
      requires tape.Valid()
      modifies tape
      ensures tape.Valid()
      ensures Value() == old(Value()).(tape := T.Compacted(tape.control, old(tape.Value()), summary, keep))
    {
      hide RetentionStart, MessageTokens, T.Rendered, T.SummaryMessage, T.SummaryPart, RolledBack, T.Compacted;
      tape.Compact(summary, keep);
    }
  }

  // ----------------------------------------------------- what rollback means

  lemma {:induction false} TurnsAppend(control: Control, a: seq<Message>, b: seq<Message>)
    ensures Turns(control, a + b) == Turns(control, a) + Turns(control, b)
    decreases |b|
  {
    if b == [] {
      assert a + b == a;
    } else {
      assert (a + b)[..|a + b| - 1] == a + b[..|b| - 1];
      TurnsAppend(control, a, b[..|b| - 1]);
    }
  }

  /** With enough turns the removed tail starts at a turn and holds exactly `n`; otherwise everything goes. */
  lemma {:induction false} CutMeans(control: Control, messages: seq<Message>, n: nat)
    requires n > 0
    ensures var c, k := Cut(control, messages, n), Turns(control, messages);
            if n <= k then c < |messages| && IsTurn(control, messages[c]) && Turns(control, messages[..c]) == k - n
            else c == 0
  {
    if messages != [] {
      var front, last := messages[..|messages| - 1], IsTurn(control, messages[|messages| - 1]);
      if !(last && n == 1) {
        CutMeans(control, front, if last then n - 1 else n);
        var c := Cut(control, front, if last then n - 1 else n);
        assert front[..c] == messages[..c];
      }
    }
  }

  /** The cut is determined by its meaning. */
  lemma CutUnique(control: Control, messages: seq<Message>, n: nat, c: nat)
    requires 0 < n <= Turns(control, messages) && c < |messages|
    requires IsTurn(control, messages[c]) && Turns(control, messages[..c]) == Turns(control, messages) - n
    ensures Cut(control, messages, n) == c
  {
    CutMeans(control, messages, n);
    var d := Cut(control, messages, n);
    if c < d { LaterHasMore(control, messages, c, d); }
    if d < c { LaterHasMore(control, messages, d, c); }
  }

  lemma LaterHasMore(control: Control, messages: seq<Message>, c: nat, d: nat)
    requires c < d <= |messages| && IsTurn(control, messages[c])
    ensures Turns(control, messages[..c]) < Turns(control, messages[..d])
  {
    assert messages[..d] == messages[..c] + messages[c..d];
    TurnsAppend(control, messages[..c], messages[c..d]);
    assert messages[c..d] == [messages[c]] + messages[c + 1..d];
    TurnsAppend(control, [messages[c]], messages[c + 1..d]);
    assert [messages[c]][..0] == [];
  }

  /** A rollback keeps a prefix and removes min(n, number of turns) turns. */
  lemma RollbackRemoves(control: Control, s: State, n: nat)
    ensures var r, k := RolledBack(control, s, n), Turns(control, s.tape.messages);
            && r.tape.messages <= s.tape.messages
            && Turns(control, r.tape.messages) == (if n < k then k - n else 0)
            && r.ordinal == s.ordinal && r.tape.items == s.tape.items
  {
    if n > 0 {
      CutMeans(control, s.tape.messages, n);
      assert s.tape.messages[..0] == [];
    }
  }

  /** A leading part before the first turn that rolling back exactly all turns keeps. */
  predicate HasPreamble(control: Control, messages: seq<Message>)
  {
    messages != [] && !IsTurn(control, messages[0])
  }

  /**
   * Two rollbacks equal one of the summed count, except in one case: the first removes exactly all
   * the turns, messages precede the first turn, and the second asks for more. The two calls then
   * keep those messages and the single call drops them.
   */
  lemma RollbackComposes(control: Control, s: State, m: nat, n: nat)
    ensures RolledBack(control, RolledBack(control, s, m), n) == RolledBack(control, s, m + n) <==>
              !(m == Turns(control, s.tape.messages) > 0 && n > 0 && HasPreamble(control, s.tape.messages))
  {
    hide RolledBack, Cut, Turns, IsTurn;
    var ms, k := s.tape.messages, Turns(control, s.tape.messages);
    RollbackCases(control, s, m);
    RollbackCases(control, s, m + n);
    RollbackCases(control, RolledBack(control, s, m), n);
    if 0 < m <= k { CutMeans(control, ms, m); }
    if 0 < m < k {
      RollbackTwice(control, ms, m, n);
    } else if m == k && 0 < k {
      FirstTurn(control, ms);
    }
  }

  /** Rollback by the number of turns present. */
  lemma RollbackCases(control: Control, s: State, n: nat)
    ensures var r, ms, k := RolledBack(control, s, n), s.tape.messages, Turns(control, s.tape.messages);
            && (n == 0 || k == 0 ==> r == s)
            && (0 < n && 0 < k ==>
                  && var kept := if n <= k then ms[..Cut(control, ms, n)] else [];
                  && r == State(s.tape.(messages := kept, summary := None), s.ordinal, s.activeTask && kept != [], None)
                  && Turns(control, kept) == (if n <= k then k - n else 0))
  {
    if 0 < n {
      CutMeans(control, s.tape.messages, n);
      assert s.tape.messages[..0] == [];
    }
  }

  lemma RollbackTwice(control: Control, ms: seq<Message>, m: nat, n: nat)
    requires 0 < m < Turns(control, ms)
    ensures var kept := ms[..Cut(control, ms, m)];
            0 < n <= Turns(control, ms) - m ==>
              && Turns(control, kept) == Turns(control, ms) - m
              && Cut(control, kept, n) == Cut(control, ms, m + n) <= |kept|
              && kept[..Cut(control, kept, n)] == ms[..Cut(control, ms, m + n)]
  {
    CutMeans(control, ms, m);
    var kept := ms[..Cut(control, ms, m)];
    if 0 < n <= Turns(control, ms) - m {
      CutMeans(control, kept, n);
      var c := Cut(control, kept, n);
      assert kept[..c] == ms[..c];
      CutUnique(control, ms, m + n, c);
    }
  }

  /** Rolling back exactly all turns cuts at the first one. */
  lemma FirstTurn(control: Control, ms: seq<Message>)
    requires Turns(control, ms) > 0
    ensures Cut(control, ms, Turns(control, ms)) > 0 <==> HasPreamble(control, ms)
  {
    CutMeans(control, ms, Turns(control, ms));
    var c := Cut(control, ms, Turns(control, ms));
    if c > 0 && !HasPreamble(control, ms) { LaterHasMore(control, ms, 0, c); }
  }

  // ------------------------------------------------------------------- runs

  datatype Event =
    | AddUser(parts: seq<ContentPart>, countAsTurn: bool)
    | AddAssistant(parts: seq<ContentPart>, requests: seq<ToolRequest>)
    | AddTool(response: ToolResponse)
    | Compact(summary: string, keep: nat)
    | Rollback(turns: nat)

  function Pushed(s: State, m: Message): State { s.(tape := s.tape.(messages := s.tape.messages + [m])) }

  function Step(tapeControl: Control, control: Control, s: State, e: Event): State
  {
    match e
    case AddUser(parts, count) =>
      Pushed(s.(ordinal := if count && s.ordinal + 1 < U64_LIMIT then s.ordinal + 1 else s.ordinal), User(parts))
    case AddAssistant(parts, requests) => Pushed(s, Assistant(parts, requests))
    case AddTool(response) => Pushed(s, Tool([response]))
    case Compact(summary, keep) => s.(tape := T.Compacted(tapeControl, s.tape, summary, keep))
    case Rollback(n) => RolledBack(control, s, n)
  }

  function Run(tapeControl: Control, control: Control, s: State, events: seq<Event>): State
  {
    if events == [] then s
    else Step(tapeControl, control, Run(tapeControl, control, s, events[..|events| - 1]), events[|events| - 1])
  }

  /** A tool result is added only after a tool result or an assistant message asking for tools. */
  predicate Answers(messages: seq<Message>)
  {
    messages != [] && (messages[|messages| - 1].Tool? || AsksForTools(messages[|messages| - 1]))
  }

  ghost predicate Disciplined(tapeControl: Control, control: Control, s: State, events: seq<Event>)
  {
    forall i :: 0 <= i < |events| && events[i].AddTool? ==>
      Answers(Run(tapeControl, control, s, events[..i]).tape.messages)
  }

  /**
   * In every run that adds tool results only as answers, compactions and rollbacks never leave a
   * tool result without the request that owns it, and the turn ordinal never falls.
   */
  lemma {:induction false} RunGrounded(tapeControl: Control, control: Control, s: State, events: seq<Event>)
    requires Grounded(s.tape.messages) && Disciplined(tapeControl, control, s, events)
    ensures Grounded(Run(tapeControl, control, s, events).tape.messages)
    ensures Run(tapeControl, control, s, events).ordinal >= s.ordinal
    decreases |events|
  {
    hide RolledBack, RetentionStart;
    if events != [] {
      var front, e := events[..|events| - 1], events[|events| - 1];
      assert forall i :: 0 <= i < |front| ==> front[..i] == events[..i];
      RunGrounded(tapeControl, control, s, front);
      var before := Run(tapeControl, control, s, front);
      assert events[..|events| - 1] == front;
      match e {
        case Compact(_, keep) => { RetentionGrounded(tapeControl, before.tape.messages, keep); }
        case Rollback(n) => {
          RollbackRemoves(control, before, n);
          PrefixGrounded(before.tape.messages, RolledBack(control, before, n).tape.messages);
        }
        case _ => {}
      }
    }
  }

  lemma PrefixGrounded(messages: seq<Message>, kept: seq<Message>)
    requires Grounded(messages) && kept <= messages
    ensures Grounded(kept)
  {
    assert forall i :: 0 <= i < |kept| ==> kept[i] == messages[i];
  }

  /** The user messages of a run that count as turns. */
  function CountedTurns(events: seq<Event>): nat
  {
    if events == [] then 0
    else
      var e := events[|events| - 1];
      CountedTurns(events[..|events| - 1]) + if e.AddUser? && e.countAsTurn then 1 else 0
  }

  /** The ordinal counts them all, up to the 64-bit limit; compactions and rollbacks never take it back. */
  lemma {:induction false} OrdinalCounts(tapeControl: Control, control: Control, s: State, events: seq<Event>)
    requires s.ordinal < U64_LIMIT
    ensures var n := s.ordinal + CountedTurns(events);
            Run(tapeControl, control, s, events).ordinal == if n < U64_LIMIT then n else U64_LIMIT - 1
    decreases |events|
  {
    hide RetentionStart, Turns, Cut;
    if events != [] { OrdinalCounts(tapeControl, control, s, events[..|events| - 1]); }
  }

  /** What a run adds is shown to the model at the end of the prompt, after all that was shown before. */
  lemma AddedShows(tapeControl: Control, control: Control, prefix: string, s: State, e: Event)
    requires e.AddUser? || e.AddAssistant? || e.AddTool?
    ensures T.Prompt(prefix, Step(tapeControl, control, s, e).tape) ==
            T.Prompt(prefix, s.tape) +
            [match e
             case AddUser(parts, _) => User(parts)
             case AddAssistant(parts, requests) => Assistant(parts, requests)
             case AddTool(response) => Tool([response])
             case _ => System([])]
  {
    hide T.Rendered, T.SummaryMessage;
  }
}
