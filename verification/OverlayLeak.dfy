/** A concrete run of the overlay that leaks a handle. */
module OverlayLeak {
  import opened Bytes
  import opened Overlay
  import opened OverlayHandles

  lemma RunSnoc(s: State, events: seq<Event>, e: Event)
    ensures Run(s, events + [e]) == Happen(Run(s, events), e)
  {
    assert (events + [e])[..|events|] == events;
  }

  /** `n` steps of the call on thread 0, each answered yes. */
  function Steps(s: State, n: nat): State { if n == 0 then s else Advance(Steps(s, n - 1), 0, Yes) }

  lemma {:induction false} StepsRun(s: State, events: seq<Event>, n: nat) returns (more: seq<Event>)
    ensures Run(s, more) == Steps(Run(s, events), n)
  {
    hide Advance, Run;
    more := events;
    if n > 0 {
      more := StepsRun(s, events, n - 1);
      RunSnoc(s, more, Step(0, Yes));
      more := more + [Step(0, Yes)];
    }
  }

  predicate Alone(s: State, c: Call) { s.calls.Keys <= {0} && CallOf(s, 0) == c }

  /** Agent `p` is registered and nothing is held; `fids` is the table. */
  predicate Calm(s: State, c: Call, fids: map<Fid, Node>)
  {
    Alone(s, c) && s.agents == map["p" := 7] && s.fids == fids && s.live == {}
  }

  lemma BindSteps()
    ensures var s := Happen(EMPTY, Start(0, BindParent("p", 7)));
            Calm(Advance(Advance(s, 0, No), 0, Yes), Done, map[])
  {
    hide AdvanceCreate;
    var s := Happen(EMPTY, Start(0, BindParent("p", 7)));
    RestDispatch(s, 0, No);
    assert Alone(s, BindParent("p", 7));
    RestDispatch(Advance(s, 0, No), 0, Yes);
  }

  lemma WalkStarts(s: State)
    requires Calm(s, WalkCheck(ROOT, 5, ["p"]), map[])
    ensures Calm(Steps(s, 3), CheckPid(5, "p", 7, [], None), map[])
  {
    hide AdvanceCreate, BindAgent, BindChild;
    var s1 := Advance(s, 0, Yes);
    assert Calm(s1, WalkNode(ROOT, 5, ["p"]), map[]) && Steps(s, 1) == s1;
    var s2 := Advance(s1, 0, Yes);
    assert Calm(s2, Lookup(5, "p", [], None), map[]) && Steps(s, 2) == s2;
    assert Steps(s, 3) == Advance(s2, 0, Yes);
  }

  lemma WalkChecks(s: State)
    requires Calm(s, CheckPid(5, "p", 7, [], None), map[])
    ensures Calm(Steps(s, 2), QueryQid(5, AgentRoot("p", 7)), map[])
  {
    hide AdvanceCreate, BindFrom, BindChild;
    var h := Handle(Proc, s.nextProc);
    var s1 := Advance(s, 0, Yes);
    assert Alone(s1, PidHeld(h, 5, "p", 7, [], None)) && s1.live == {h} && Steps(s, 1) == s1;
    assert Steps(s, 2) == Advance(s1, 0, Yes);
  }

  lemma WalkEnds(s: State)
    requires Calm(s, QueryQid(5, AgentRoot("p", 7)), map[])
    ensures Calm(Steps(s, 2), Done, map[5 := AgentRoot("p", 7)])
  {
    hide AdvanceCreate, BindFrom, BindAgent;
    var s1 := Advance(s, 0, Yes);
    assert Calm(s1, Insert(5, AgentRoot("p", 7)), map[]) && Steps(s, 1) == s1;
    assert Steps(s, 2) == Advance(s1, 0, Yes);
  }

  lemma ListSteps(s: State)
    requires Calm(s, ListNode(5), map[5 := AgentRoot("p", 7)])
    ensures Steps(s, 2).calls.Keys <= {0} && CallOf(Steps(s, 2), 0).ListOpen?
  {
    hide AdvanceCreate;
    RestDispatch(s, 0, Yes);
    var s1 := Advance(s, 0, Yes);
    assert Calm(s1, ListBacking("p", 7), s.fids) && Steps(s, 1) == s1;
    RestDispatch(s1, 0, Yes);
    assert Steps(s, 2) == Advance(s1, 0, Yes);
  }

  lemma StartCall(s: State, events: seq<Event>, c: Call, fids: map<Fid, Node>)
    requires Calm(Run(s, events), Done, fids) && Fresh(c)
    ensures Calm(Run(s, events + [Start(0, c)]), c, fids)
  {
    hide Run;
    RunSnoc(s, events, Start(0, c));
  }

  lemma LeakQuiets(s: State)
    requires s.calls.Keys <= {0} && CallOf(s, 0).ListOpen?
    ensures Quiet(Happen(s, Step(0, No))) && FailsListing(s, Step(0, No))
  {
  }

  /** A run that leaks: a process is registered and walked to, and the listing of its directory fails to open. */
  lemma LeakingRun() returns (events: seq<Event>)
    ensures Quiet(Run(EMPTY, events)) && SomeListingFails(EMPTY, events)
    ensures Run(EMPTY, events).live != Named(Run(EMPTY, events))
  {
    hide Run, Advance, FailsListing;
    BindSteps();
    var bind: Event := Start(0, BindParent("p", 7));
    RunNothing(EMPTY);
    RunSnoc(EMPTY, [], bind);
    RunSnoc(EMPTY, [] + [bind], Step(0, No));
    RunSnoc(EMPTY, [] + [bind] + [Step(0, No)], Step(0, Yes));
    events := [] + [bind] + [Step(0, No)] + [Step(0, Yes)];
    StartCall(EMPTY, events, WalkCheck(ROOT, 5, ["p"]), map[]);
    events := events + [Start(0, WalkCheck(ROOT, 5, ["p"]))];
    WalkStarts(Run(EMPTY, events));
    events := StepsRun(EMPTY, events, 3);
    WalkChecks(Run(EMPTY, events));
    events := StepsRun(EMPTY, events, 2);
    WalkEnds(Run(EMPTY, events));
    events := StepsRun(EMPTY, events, 2);
    StartCall(EMPTY, events, ListNode(5), map[5 := AgentRoot("p", 7)]);
    events := events + [Start(0, ListNode(5))];
    ListSteps(Run(EMPTY, events));
    var listing := StepsRun(EMPTY, events, 2);
    LeakQuiets(Run(EMPTY, listing));
    RunSnoc(EMPTY, listing, Step(0, No));
    events := listing + [Step(0, No)];
    assert events[..|listing|] == listing && events[|listing|] == Step(0, No);
    assert FailsListing(Run(EMPTY, events[..|listing|]), events[|listing|]);
    ConservationExactly(events);
  }

  lemma RunNothing(s: State)
    ensures Run(s, []) == s
  {
  }
}
