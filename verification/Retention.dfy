/** Which messages a compaction keeps: whole recent turns if they fit, else a repaired raw tail. */
module Retention {
  import opened Messages

  /** Recognises a part of a user message that is runtime control input. */
  type Control = ContentPart -> bool

  /** A user message that starts a turn: one without control parts. */
  predicate IsTurn(control: Control, m: Message)
  {
    m.User? && forall i :: 0 <= i < |m.parts| ==> !control(m.parts[i])
  }

  /** One control part anywhere makes a user message control input; without parts it is a turn. */
  lemma TurnGrows(control: Control, parts: seq<ContentPart>, more: seq<ContentPart>, part: ContentPart)
    ensures IsTurn(control, User([]))
    ensures IsTurn(control, User(parts + [part] + more)) <==> IsTurn(control, User(parts + more)) && !control(part)
  {
    var with, without := parts + [part] + more, parts + more;
    PartsMatter(control, with);
    PartsMatter(control, without);
    assert forall x :: x in with <==> x in without || x == part;
  }

  lemma PartsMatter(control: Control, parts: seq<ContentPart>)
    ensures IsTurn(control, User(parts)) <==> forall x :: x in parts ==> !control(x)
  {
  }

  /** A span starts at the first message and at every turn. */
  predicate SpanStart(control: Control, messages: seq<Message>, i: nat)
  {
    i < |messages| && (i == 0 || IsTurn(control, messages[i]))
  }

  datatype SpanKind = UserTurn | ControlSpan
  datatype Span = Span(start: nat, end: nat, kind: SpanKind)

  /** `spans` cut the messages at exactly the span starts. */
  ghost predicate Partition(control: Control, messages: seq<Message>, spans: seq<Span>, upTo: nat)
    requires upTo <= |messages|
  {
    && (spans == [] <==> upTo == 0)
    && (spans != [] ==> spans[0].start == 0 && spans[|spans| - 1].end == upTo)
    && (forall j :: 0 <= j < |spans| ==>
          && spans[j].start < spans[j].end <= upTo && SpanStart(control, messages, spans[j].start)
          && spans[j].kind == (if IsTurn(control, messages[spans[j].start]) then UserTurn else ControlSpan)
          && (forall i :: spans[j].start < i < spans[j].end ==> !IsTurn(control, messages[i])))
    && (forall j :: 0 <= j < |spans| - 1 ==> spans[j].end == spans[j + 1].start)
  }

  method SemanticSpans(control: Control, messages: seq<Message>) returns (spans: seq<Span>)
    ensures Partition(control, messages, spans, |messages|)
  {
    hide IsTurn;
    spans := [];
    var start := 0;
    while start < |messages|
      invariant 0 <= start <= |messages| && Partition(control, messages, spans, start)
      invariant 0 < start < |messages| ==> IsTurn(control, messages[start])
    {
      var kind := if IsTurn(control, messages[start]) then UserTurn else ControlSpan;
      var end := start + 1;
      while end < |messages| && !IsTurn(control, messages[end])
        invariant start < end <= |messages|
        invariant forall i :: start < i < end ==> !IsTurn(control, messages[i])
      {
        end := end + 1;
      }
      spans := spans + [Span(start, end, kind)];
      start := end;
    }
  }

  // ----------------------------------------------------------- specification

  /** The first span start at or after `from`; the length if there is none. */
  function FirstStart(control: Control, messages: seq<Message>, from: nat): (i: nat)
    requires from <= |messages|
    ensures from <= i <= |messages| && (i < |messages| ==> SpanStart(control, messages, i))
    ensures forall j :: from <= j < i ==> !SpanStart(control, messages, j)
    decreases |messages| - from
  {
    if from == |messages| || SpanStart(control, messages, from) then from else FirstStart(control, messages, from + 1)
  }

  /** The start of the run of tool results that ends at `i`. */
  function BlockStart(messages: seq<Message>, i: nat): (b: nat)
    requires i < |messages|
    ensures b <= i && (b > 0 ==> !messages[b - 1].Tool?) && forall j :: b <= j < i ==> messages[j].Tool?
  {
    if i == 0 || !messages[i - 1].Tool? then i else BlockStart(messages, i - 1)
  }

  /** A cut inside a tool block moves back to the assistant message that owns it, if there is one. */
  function Align(messages: seq<Message>, i: nat): (r: nat)
    requires i <= |messages|
    ensures r <= i
  {
    if i == |messages| || !messages[i].Tool? then i
    else
      var b := BlockStart(messages, i);
      if b > 0 && AsksForTools(messages[b - 1]) then b - 1 else i
  }

  /** Where the kept tail starts: the earliest span start within budget, else the aligned raw tail. */
  function RetentionStart(control: Control, messages: seq<Message>, keep: nat): (r: nat)
    ensures r <= |messages|
  {
    if messages == [] then 0
    else if keep == 0 then |messages|
    else
      var from := if keep < |messages| then |messages| - keep else 0;
      var i := FirstStart(control, messages, from);
      if i < |messages| then i else Align(messages, from)
  }

  // --------------------------------------------------------------- the code

  method AlignToToolBlock(messages: seq<Message>, start: nat) returns (r: nat)
    requires start <= |messages|
    ensures r == Align(messages, start)
  {
    if start >= |messages| || !messages[start].Tool? { return start; }
    var first: nat := start;
    while first > 0 && messages[first - 1].Tool?
      invariant first <= start && BlockStart(messages, first) == BlockStart(messages, start)
    {
      first := first - 1;
    }
    if first > 0 && AsksForTools(messages[first - 1]) { return first - 1; }
    return start;
  }

  /** The last span that fits is followed backwards as long as the budget lasts. */
  method CompactionRetentionStart(control: Control, messages: seq<Message>, keep: nat) returns (r: nat)
    ensures r == RetentionStart(control, messages, keep)
  {
    if messages == [] { return 0; }
    if keep == 0 { return |messages|; }
    var spans := SemanticSpans(control, messages);
    var n := |messages|;
    var last := spans[|spans| - 1];
    var start := last.start;
    var retained := last.end - last.start;
    var j := |spans| - 1;
    while j > 0
      invariant 0 <= j < |spans| && start == spans[j].start && retained == n - start
      invariant j < |spans| - 1 ==> retained <= keep
    {
      var length := spans[j - 1].end - spans[j - 1].start;
      if retained + length > keep { break; }
      start := spans[j - 1].start;
      retained := retained + length;
      j := j - 1;
    }
    var oversized := last.end - last.start > keep;
    if oversized && keep < n { start := n - keep; }
    r := AlignToToolBlock(messages, start);
    GreedyIsEarliest(control, messages, spans, keep, j);
  }

  lemma GreedyIsEarliest(control: Control, messages: seq<Message>, spans: seq<Span>, keep: nat, j: nat)
    requires messages != [] && keep > 0 && Partition(control, messages, spans, |messages|) && j < |spans|
    requires j < |spans| - 1 ==> |messages| - spans[j].start <= keep
    requires j > 0 ==> |messages| - spans[j - 1].start > keep
    ensures var last := spans[|spans| - 1];
            var start := if last.end - last.start > keep then |messages| - keep else spans[j].start;
            0 <= start && Align(messages, start) == RetentionStart(control, messages, keep)
  {
    var n, last := |messages|, spans[|spans| - 1];
    var from := if keep < n then n - keep else 0;
    var i := FirstStart(control, messages, from);
    if last.end - last.start > keep {
      assert forall m :: last.start < m < n ==> !SpanStart(control, messages, m);
      assert i == n;
    } else {
      var s := spans[j].start;
      assert from <= s;
      assert j > 0 ==> spans[j - 1].end == s && spans[j - 1].start < from;
      assert forall m :: from <= m < s ==> !SpanStart(control, messages, m);
      assert i == s;
      assert messages[s].Tool? ==> s == 0;
    }
  }

  // -------------------------------------------------------------- properties

  /** The start of the last span. */
  function LastStart(control: Control, messages: seq<Message>): (i: nat)
    requires messages != []
    ensures SpanStart(control, messages, i) && forall j :: i < j < |messages| ==> !SpanStart(control, messages, j)
  {
    if SpanStart(control, messages, |messages| - 1) then |messages| - 1
    else
      var i := LastStart(control, messages[..|messages| - 1]);
      assert messages[i] == messages[..|messages| - 1][i];
      assert forall j :: 0 <= j < |messages| - 1 ==> messages[..|messages| - 1][j] == messages[j];
      assert forall j :: i < j < |messages| - 1 ==>
        SpanStart(control, messages, j) == SpanStart(control, messages[..|messages| - 1], j);
      i
  }

  /** If the last span fits the budget, the kept tail is the longest run of whole spans that does. */
  lemma RetentionWholeSpans(control: Control, messages: seq<Message>, keep: nat)
    requires messages != [] && keep > 0 && |messages| - LastStart(control, messages) <= keep
    ensures var r := RetentionStart(control, messages, keep);
            && SpanStart(control, messages, r) && |messages| - r <= keep
            && forall i: nat :: SpanStart(control, messages, i) && |messages| - i <= keep ==> r <= i
  {
    hide IsTurn, Align, SpanStart;
    var from := if keep < |messages| then |messages| - keep else 0;
    var last := LastStart(control, messages);
    var i := FirstStart(control, messages, from);
    NoStartAfterLast(control, messages);
    assert SpanStart(control, messages, last) && i <= last;
    forall k: nat | SpanStart(control, messages, k) && |messages| - k <= keep ensures i <= k {
      StartInRange(control, messages, k);
      assert from <= k;
    }
  }

  lemma StartInRange(control: Control, messages: seq<Message>, i: nat)
    requires SpanStart(control, messages, i)
    ensures i < |messages|
  {}

  /**
   * If the last span alone exceeds the budget, the kept tail is the last `keep` messages, extended
   * back only over one tool block to the assistant message that owns it, and never out of the
   * last span.
   */
  lemma RetentionRawTail(control: Control, messages: seq<Message>, keep: nat)
    requires messages != [] && keep > 0 && |messages| - LastStart(control, messages) > keep
    ensures var r, last, raw := RetentionStart(control, messages, keep), LastStart(control, messages),
            |messages| - keep;
            && last <= r <= raw
            && (r == raw || (AsksForTools(messages[r]) && forall i :: r < i <= raw ==> messages[i].Tool?))
            && (r == raw && messages[raw].Tool? ==>
                  var b := BlockStart(messages, raw); b == 0 || !AsksForTools(messages[b - 1]))
  {
    hide IsTurn, SpanStart, LastStart;
    var last, raw := LastStart(control, messages), |messages| - keep;
    NoStartAfterLast(control, messages);
    assert FirstStart(control, messages, raw) == |messages|;
    if messages[raw].Tool? {
      var b := BlockStart(messages, raw);
      LastIsNoTool(control, messages);
      assert b <= last ==> messages[last].Tool?;
    }
  }

  lemma NoStartAfterLast(control: Control, messages: seq<Message>)
    requires messages != []
    ensures LastStart(control, messages) < |messages|
    ensures forall j :: LastStart(control, messages) < j < |messages| ==> !SpanStart(control, messages, j)
  {}

  lemma LastIsNoTool(control: Control, messages: seq<Message>)
    requires messages != []
    ensures messages[LastStart(control, messages)].Tool? ==> LastStart(control, messages) == 0
  {}

  /** Compaction never separates a tool result from the request it answers. */
  lemma RetentionGrounded(control: Control, messages: seq<Message>, keep: nat)
    requires Grounded(messages)
    ensures Grounded(messages[RetentionStart(control, messages, keep)..])
  {
    var r := RetentionStart(control, messages, keep);
    var kept := messages[r..];
    if kept != [] {
      if messages[r].Tool? {
        assert r > 0;
        var from := |messages| - keep;
        assert r == from;
        BlockOwned(messages, from);
        assert false;
      }
      forall i | 0 <= i < |kept| && kept[i].Tool? ensures i > 0 && (kept[i - 1].Tool? || AsksForTools(kept[i - 1])) {
        assert kept[i] == messages[r + i];
        assert i > 0 ==> kept[i - 1] == messages[r + i - 1];
      }
    }
  }

  lemma BlockOwned(messages: seq<Message>, i: nat)
    requires Grounded(messages) && i < |messages| && messages[i].Tool?
    ensures BlockStart(messages, i) > 0 && AsksForTools(messages[BlockStart(messages, i) - 1])
  {
    var b := BlockStart(messages, i);
    assert messages[b].Tool?;
  }
}
