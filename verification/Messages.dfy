/** Tape messages and the token estimate used for prompt budgeting. */
module Messages {
  /** `Structured` carries the JSON text of its value. */
  datatype ContentPart =
    | Text(text: string)
    | Thinking(text: string)
    | RedactedThinking(data: string)
    | Attachment(hash: string, mimeType: string)
    | Structured(json: string)

  datatype ToolRequest = ToolRequest(id: string, name: string, arguments: string)
  datatype ToolResponse = ToolResponse(id: string, content: seq<ContentPart>)

  datatype Message =
    | User(parts: seq<ContentPart>)
    | Assistant(parts: seq<ContentPart>, toolRequests: seq<ToolRequest>)
    | Tool(responses: seq<ToolResponse>)
    | System(parts: seq<ContentPart>)
    | Context(parts: seq<ContentPart>)

  function Sum<T>(items: seq<T>, cost: T -> nat): nat
  {
    if items == [] then 0 else Sum(items[..|items| - 1], cost) + cost(items[|items| - 1])
  }

  lemma {:induction false} SumAppend<T>(a: seq<T>, b: seq<T>, cost: T -> nat)
    ensures Sum(a + b, cost) == Sum(a, cost) + Sum(b, cost)
    decreases |b|
  {
    if b == [] {
      assert a + b == a;
    } else {
      assert (a + b)[..|a + b| - 1] == a + b[..|b| - 1];
      SumAppend(a, b[..|b| - 1], cost);
    }
  }

  lemma SumOne<T>(x: T, cost: T -> nat)
    ensures Sum([x], cost) == cost(x)
  {
    assert [x][..0] == [];
  }

  /** About four characters to a token, rounded up. */
  function TextTokens(text: string): nat { (|text| + 3) / 4 }

  function PartTokens(part: ContentPart): nat
  {
    match part
    case Text(text) => TextTokens(text)
    case Thinking(text) => TextTokens(text)
    case RedactedThinking(data) => TextTokens(data)
    case Attachment(hash, mimeType) => TextTokens(hash) + TextTokens(mimeType) + 10
    case Structured(json) => TextTokens(json)
  }

  function RequestTokens(r: ToolRequest): nat { TextTokens(r.id) + TextTokens(r.name) + TextTokens(r.arguments) + 4 }

  function ResponseTokens(r: ToolResponse): nat { Sum(r.content, PartTokens) + TextTokens(r.id) + 4 }

  function MessageTokens(m: Message): nat
  {
    6 + match m
        case User(parts) => Sum(parts, PartTokens)
        case Assistant(parts, requests) => Sum(parts, PartTokens) + Sum(requests, RequestTokens)
        case Tool(responses) => Sum(responses, ResponseTokens)
        case System(parts) => Sum(parts, PartTokens)
        case Context(parts) => Sum(parts, PartTokens)
  }

  /** The characters of a message's texts, and how many texts it has. */
  datatype Bulk = Bulk(chars: nat, texts: nat, attachments: nat, tools: nat)

  function Plus(a: Bulk, b: Bulk): Bulk
  {
    Bulk(a.chars + b.chars, a.texts + b.texts, a.attachments + b.attachments, a.tools + b.tools)
  }

  function Total<T>(items: seq<T>, bulk: T -> Bulk): Bulk
  {
    if items == [] then Bulk(0, 0, 0, 0) else Plus(bulk(items[0]), Total(items[1..], bulk))
  }

  function PartBulk(part: ContentPart): Bulk
  {
    match part
    case Text(text) => Bulk(|text|, 1, 0, 0)
    case Thinking(text) => Bulk(|text|, 1, 0, 0)
    case RedactedThinking(data) => Bulk(|data|, 1, 0, 0)
    case Attachment(hash, mimeType) => Bulk(|hash| + |mimeType|, 2, 1, 0)
    case Structured(json) => Bulk(|json|, 1, 0, 0)
  }

  function RequestBulk(r: ToolRequest): Bulk { Bulk(|r.id| + |r.name| + |r.arguments|, 3, 0, 1) }

  function ResponseBulk(r: ToolResponse): Bulk { Plus(Bulk(|r.id|, 1, 0, 1), Total(r.content, PartBulk)) }

  function MessageBulk(m: Message): Bulk
  {
    match m
    case Tool(responses) => Total(responses, ResponseBulk)
    case Assistant(parts, requests) => Plus(Total(parts, PartBulk), Total(requests, RequestBulk))
    case _ => Total(m.parts, PartBulk)
  }

  /** Four characters to a token, at most three to spare per text; 10 for an attachment, 4 for a tool call. */
  predicate Estimates(tokens: nat, b: Bulk)
  {
    0 <= 4 * (tokens - 10 * b.attachments - 4 * b.tools) - b.chars <= 3 * b.texts
  }

  lemma {:induction false} SumEstimates<T>(items: seq<T>, cost: T -> nat, bulk: T -> Bulk)
    requires forall i :: 0 <= i < |items| ==> Estimates(cost(items[i]), bulk(items[i]))
    ensures Estimates(Sum(items, cost), Total(items, bulk))
  {
    if items != [] {
      SumEstimates(items[1..], cost, bulk);
      assert items == [items[0]] + items[1..];
      SumAppend([items[0]], items[1..], cost);
      SumOne(items[0], cost);
    }
  }

  lemma ResponseEstimates(r: ToolResponse)
    ensures Estimates(ResponseTokens(r), ResponseBulk(r))
  {
    SumEstimates(r.content, PartTokens, PartBulk);
  }

  /** The estimate of a message counts every text in it: a token for each four characters, rounded up per text. */
  lemma TokensEstimate(m: Message)
    ensures MessageTokens(m) >= 6 && Estimates(MessageTokens(m) - 6, MessageBulk(m))
  {
    match m
    case Tool(responses) =>
      forall i | 0 <= i < |responses| ensures Estimates(ResponseTokens(responses[i]), ResponseBulk(responses[i])) {
        ResponseEstimates(responses[i]);
      }
      SumEstimates(responses, ResponseTokens, ResponseBulk);
    case Assistant(parts, requests) =>
      SumEstimates(parts, PartTokens, PartBulk);
      SumEstimates(requests, RequestTokens, RequestBulk);
    case _ => SumEstimates(m.parts, PartTokens, PartBulk);
  }

  /** An assistant message that asks for tools. */
  predicate AsksForTools(m: Message) { m.Assistant? && m.toolRequests != [] }

  /** Every tool result directly follows a tool result or an assistant message asking for tools. */
  predicate Grounded(messages: seq<Message>)
  {
    forall i :: 0 <= i < |messages| && messages[i].Tool? ==>
      i > 0 && (messages[i - 1].Tool? || AsksForTools(messages[i - 1]))
  }
}
