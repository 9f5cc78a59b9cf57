/** The tape: the message log of an agent machine with its cached prompt pieces and token estimates. */
module Tape {
  import opened Bytes
  import opened Text
  import opened Messages
  import opened Retention
  import opened ContextDiff

  /** What a tape holds, without its caches. */
  datatype Contents = Contents(
    messages: seq<Message>, summary: Option<string>, items: seq<Item>,
    revision: nat, lastDelta: Delta, compactions: nat)

  const NO_DELTA := Delta(false, false, 0, [], [], [])
  const EMPTY := Contents([], None, [], 0, NO_DELTA, 0)

  function SummaryPrefix(): string
  {
    "The following is a compacted summary of the earlier conversation history in this machine. "
    + "Use this context to continue the work seamlessly without duplicating what has already been done:"
  }

  function SummaryMessage(prefix: string, summary: string): Message
  {
    Context([Messages.Text(prefix + "\n" + summary)])
  }

  function SummaryPart(prefix: string, summary: Option<string>): seq<Message>
  {
    match summary case None => [] case Some(s) => [SummaryMessage(prefix, s)]
  }

  function FormatItem(i: Item): string
  {
    if Trim(i.content) == [] then [] else Trim(i.title) + ":\n" + Trim(i.content)
  }

  /** One context message per item that has something to say. */
  function Rendered(items: seq<Item>): seq<Message>
  {
    if items == [] then []
    else
      var text := FormatItem(items[|items| - 1]);
      Rendered(items[..|items| - 1]) + if text == [] then [] else [Context([Messages.Text(text)])]
  }

  /** What the model is shown: reference context, then the summary, then the messages. */
  function Prompt(prefix: string, c: Contents): seq<Message>
  {
    Rendered(c.items) + SummaryPart(prefix, c.summary) + c.messages
  }

  function Compacted(control: Control, c: Contents, summary: string, keep: nat): Contents
  {
    c.(messages := c.messages[RetentionStart(control, c.messages, keep)..], summary := Some(summary),
      compactions := c.compactions + 1)
  }

  /** The contents after a reference context snapshot is applied. */
  function Updated(digest: Digest, c: Contents, items: seq<Item>): Contents
  {
    var d := Diff(c.items, NormalizedAll(digest, items), c.revision);
    c.(items := Applied(digest, c.items, items, c.revision), revision := d.revision, lastDelta := d)
  }

  method EstimateAll(messages: seq<Message>) returns (n: nat)
    ensures n == Sum(messages, MessageTokens)
  {
    n := 0;
    for i := 0 to |messages|
      invariant n == Sum(messages[..i], MessageTokens)
    {
      assert messages[..i + 1][..i] == messages[..i];
      n := n + MessageTokens(messages[i]);
    }
    assert messages[..|messages|] == messages;
  }

  method RenderContextItems(items: seq<Item>) returns (rendered: seq<Message>, tokens: nat)
    ensures rendered == Rendered(items) && tokens == Sum(rendered, MessageTokens)
  {
    rendered, tokens := [], 0;
    for i := 0 to |items|
      invariant rendered == Rendered(items[..i]) && tokens == Sum(rendered, MessageTokens)
    {
      assert items[..i + 1][..i] == items[..i];
      var content := FormatItem(items[i]);
      if content == [] { continue; }
      var message := Context([Messages.Text(content)]);
      assert (rendered + [message])[..|rendered|] == rendered;
      tokens := tokens + MessageTokens(message);
      rendered := rendered + [message];
    }
    assert items[..|items|] == items;
  }

  class Tape {
    const control: Control
    const digest: Digest
    const prefix: string
    var messages: seq<Message>
    var messagesTokens: nat
    var summary: Option<string>
    var summaryTokens: nat
    var items: seq<Item>
    var rendered: seq<Message>
    var renderedTokens: nat
    var revision: nat
    var lastDelta: Delta
    var compactions: nat

    /** Every cache equals what recomputing it from the contents would give. */
    ghost predicate Valid()
      reads this
    {
      && messagesTokens == Sum(messages, MessageTokens)
      && summaryTokens == Sum(SummaryPart(prefix, summary), MessageTokens)
      && rendered == Rendered(items)
      && renderedTokens == Sum(rendered, MessageTokens)
    }

    ghost function Value(): Contents
      reads this
    {
      Contents(messages, summary, items, revision, lastDelta, compactions)
    }

    constructor (control: Control, digest: Digest)
      ensures Valid() && Value() == EMPTY && this.control == control && this.digest == digest &&
              prefix == SummaryPrefix()
    {
      hide MessageTokens, SummaryMessage, SummaryPrefix;
      this.control, this.digest, prefix := control, digest, SummaryPrefix();
      messages, messagesTokens, summary, summaryTokens := [], 0, None, 0;
      items, rendered, renderedTokens, revision, lastDelta, compactions := [], [], 0, 0, NO_DELTA, 0;
    }

    method PromptView() returns (view: seq<Message>, tokens: nat)
      requires Valid()
      ensures view == Prompt(prefix, Value()) && tokens == Sum(view, MessageTokens)
    {
      hide MessageTokens, Rendered, SummaryMessage, RetentionStart;
      view := rendered;
      match summary {
        case Some(s) => { view := view + [SummaryMessage(prefix, s)]; }
        case None => {}
      }
      assert view == rendered + SummaryPart(prefix, summary);
      view := view + messages;
      tokens := renderedTokens + summaryTokens + messagesTokens;
      SumAppend(rendered, SummaryPart(prefix, summary), MessageTokens);
      SumAppend(rendered + SummaryPart(prefix, summary), messages, MessageTokens);
    }

    method Push(message: Message)
      requires Valid()
      modifies `messages, `messagesTokens
      ensures Valid() && Value() == old(Value()).(messages := old(messages) + [message])
    {
      hide MessageTokens, Rendered, SummaryMessage, RetentionStart;
      messagesTokens := messagesTokens + MessageTokens(message);
      assert (messages + [message])[..|messages|] == messages;
      messages := messages + [message];
    }

    method Clear()
      modifies this
      ensures Valid() && Value() == EMPTY
    {
      hide MessageTokens, SummaryMessage;
      messages, messagesTokens, summary, summaryTokens := [], 0, None, 0;
      items, rendered, renderedTokens, revision, lastDelta, compactions := [], [], 0, 0, NO_DELTA, 0;
    }

    method Replace(retained: seq<Message>)
      requires Valid()
      modifies `messages, `messagesTokens
      ensures Valid() && Value() == old(Value()).(messages := retained)
    {
      hide MessageTokens, Rendered, SummaryMessage, RetentionStart;
      messages := retained;
      messagesTokens := EstimateAll(messages);
    }

    method ApplyContextItems(snapshot: seq<Item>) returns (d: Delta)
      requires Valid()
      modifies `items, `rendered, `renderedTokens, `revision, `lastDelta
      ensures Valid() && Value() == Updated(digest, old(Value()), snapshot) && d == lastDelta
    {
      hide MessageTokens, Rendered, SummaryMessage, IdsWhere;
      var current := NormalizeContextItems(digest, snapshot);
      d := DiffContextItems(items, current, revision);
      if d.changed {
        items := current;
        rendered, renderedTokens := RenderContextItems(current);
        revision := d.revision;
      }
      lastDelta := d;
    }

    method SetSummary(text: string)
      requires Valid()
      modifies `summary, `summaryTokens
      ensures Valid() && Value() == old(Value()).(summary := Some(text))
    {
      hide MessageTokens, Rendered, SummaryMessage, RetentionStart;
      summaryTokens := MessageTokens(SummaryMessage(prefix, text));
      summary := Some(text);
      SumOne(SummaryMessage(prefix, text), MessageTokens);
    }

    method ClearSummary()
      requires Valid()
      modifies `summary, `summaryTokens
      ensures Valid() && Value() == old(Value()).(summary := None)
    {
      hide MessageTokens, Rendered, SummaryMessage, RetentionStart;
      summary, summaryTokens := None, 0;
    }

    method Compact(text: string, keep: nat)
      requires Valid()
      modifies `messages, `messagesTokens, `summary, `summaryTokens, `compactions
      ensures Valid() && Value() == Compacted(control, old(Value()), text, keep)
    {
      hide MessageTokens, Rendered, SummaryMessage, RetentionStart;
      var start := CompactionRetentionStart(control, messages, keep);
      messages := messages[start..];
      messagesTokens := EstimateAll(messages);
      SetSummary(text);
      compactions := compactions + 1;
    }
  }

  /**
   * A tape with consistent items shows exactly the applied snapshot, whether or not a change was
   * reported, unless the snapshot only redivides the fields of the held items. It never does if
   * the held items hold no line break, or if no kind or title on either side does.
   */
  lemma PromptShowsSnapshot(prefix: string, digest: Digest, c: Contents, items: seq<Item>)
    requires Injective(digest) && Fingerprinted(digest, c.items) && Consistent(c.items)
    ensures !Redivides(c.items, items) ==>
              Prompt(prefix, Updated(digest, c, items)) ==
              Rendered(NormalizedAll(digest, items)) + SummaryPart(prefix, c.summary) + c.messages
    ensures AllUnbroken(c.items) || (Plain(c.items) && Plain(items)) ==> !Redivides(c.items, items)
  {
    FollowsOn(digest, c.items, items, c.revision);
    UnbrokenKeeps(c.items, items);
  }

  /** Holds a character that is not white space. */
  predicate Says(text: string) { exists i :: 0 <= i < |text| && !IsWhite(text[i]) }

  lemma TrimSays(text: string)
    ensures Says(text) <==> Trim(text) != []
  {
    hide Trim;
    var before, after := TrimSplits(text);
    if Trim(text) != [] {
      assert text[|before|] == Trim(text)[0] && !IsWhite(text[|before|]);
    } else {
      assert text == before + after;
    }
  }

  /** The messages are the titles and contents of the items numbered `at`, in order, and no other item says anything. */
  ghost predicate Shows(items: seq<Item>, messages: seq<Message>, at: seq<nat>)
  {
    && |at| == |messages| && (forall j, k :: 0 <= j < k < |at| ==> at[j] < at[k])
    && (forall j :: 0 <= j < |at| ==>
          && at[j] < |items| && Says(items[at[j]].content)
          && messages[j] ==
             Context([Messages.Text(Trim(items[at[j]].title) + ":\n" + Trim(items[at[j]].content))]))
    && forall i :: 0 <= i < |items| && Says(items[i].content) ==> i in at
  }

  /** Exactly the items that say something are rendered, each once and in order. */
  lemma {:induction false} RenderedExact(items: seq<Item>) returns (at: seq<nat>)
    ensures Shows(items, Rendered(items), at)
    decreases |items|
  {
    hide Trim, Says;
    at := [];
    if items != [] {
      var n := |items| - 1;
      at := RenderedExact(items[..n]);
      TrimSays(items[n].content);
      if Says(items[n].content) { at := at + [n]; }
    }
  }

  /** After a compaction the prompt is the context, the new summary under its heading, and the kept messages. */
  lemma CompactedShows(control: Control, prefix: string, c: Contents, summary: string, keep: nat)
    ensures Prompt(prefix, Compacted(control, c, summary, keep)) ==
            Rendered(c.items) + [Context([Messages.Text(prefix + "\n" + summary)])]
            + c.messages[RetentionStart(control, c.messages, keep)..]
    ensures Compacted(control, c, summary, keep).compactions == c.compactions + 1
  {
    hide RetentionStart, Rendered;
  }

  /** A snapshot that is taken up raises the revision by one, up to the 64-bit limit; any other leaves it alone. */
  lemma RevisionRises(digest: Digest, c: Contents, items: seq<Item>)
    requires c.revision < U64_LIMIT
    ensures var u := Updated(digest, c, items);
            && u.messages == c.messages && u.summary == c.summary && u.compactions == c.compactions
            && u.items == (if u.lastDelta.changed then NormalizedAll(digest, items) else c.items)
            && u.revision == u.lastDelta.revision
            && u.revision == if u.lastDelta.changed && c.revision < U64_LIMIT - 1 then c.revision + 1 else c.revision
  {
    hide IdsWhere, Index;
  }
}
