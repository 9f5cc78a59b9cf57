/** Versioned user input records and their way through the `io/input` stream. */
module UserInput {
  import opened Bytes
  import opened Text
  import opened Frames
  import Utf8
  import AgentFs
  import I = AgentFsInvariant
  import R = AgentFsRuns
  import K = Knowledge

  datatype Intent = Agent | ForceAgent | Command
  datatype Mode = Steer | FollowUp | NextTurn

  datatype Record = Record(version: nat, submissionId: string, intent: Intent, mode: Mode, body: string)

  /** The JSON codec of a record and the UUID recogniser. */
  datatype Wire = Wire(serialize: Record -> bytes, parse: bytes -> Option<Record>, isUuid: string -> bool)

  ghost predicate Faithful(w: Wire) { forall r :: w.parse(w.serialize(r)) == Some(r) }

  // ------------------------------------------------------------- the prefix

  function ParsePrefix(input: string): (Intent, string)
  {
    if input != [] && input[0] == '!' then (Command, input[1..])
    else if input != [] && input[0] == ':' then (ForceAgent, input[1..])
    else (Agent, input)
  }

  function Mark(intent: Intent): string
  {
    match intent case Agent => "" case ForceAgent => ":" case Command => "!"
  }

  /**
   * At most one mark is consumed and every other character is kept; an intent and body can be
   * spelt iff they are not ordinary input that starts with a mark.
   */
  lemma PrefixRoundTrip(input: string, intent: Intent, body: string)
    ensures Mark(ParsePrefix(input).0) + ParsePrefix(input).1 == input
    ensures (exists text :: ParsePrefix(text) == (intent, body)) <==> !(intent == Agent && ParsePrefix(body).0 != Agent)
  {
    var text := Mark(intent) + body;
    assert intent != Agent ==> text[1..] == body;
    assert intent == Agent ==> text == body;
    if !(intent == Agent && ParsePrefix(body).0 != Agent) { assert ParsePrefix(text) == (intent, body); }
  }

  // ------------------------------------------------------------ the payload

  /** `alan-input-` */
  const FAMILY: bytes := [97, 108, 97, 110, 45, 105, 110, 112, 117, 116, 45]
  /** `alan-input-v1` and a newline. */
  const MAGIC: bytes := FAMILY + [118, 49, 10]

  predicate WellFormed(w: Wire, r: Record) { r.version == 1 && w.isUuid(r.submissionId) && Trim(r.body) != [] }

  function EncodePayload(w: Wire, r: Record): Option<bytes>
  {
    if WellFormed(w, r) then Some(MAGIC + w.serialize(r)) else None
  }

  datatype Decoded = PlainText | Submission(record: Record) | Malformed

  function DecodePayload(w: Wire, payload: bytes): Decoded
  {
    if MAGIC <= payload then
      match w.parse(payload[|MAGIC|..])
      case None => Malformed
      case Some(r) => if WellFormed(w, r) then Submission(r) else Malformed
    else if FAMILY <= payload then Malformed
    else PlainText
  }

  /** Version one, a UUID, and a body that is not only white space. */
  ghost predicate Sendable(w: Wire, r: Record)
  {
    r.version == 1 && w.isUuid(r.submissionId) && exists i :: 0 <= i < |r.body| && !IsWhite(r.body[i])
  }

  lemma SendableMeans(w: Wire, r: Record)
    ensures Sendable(w, r) <==> WellFormed(w, r)
  {
    hide Trim;
    var before, after := TrimSplits(r.body);
    var body := Trim(r.body);
    if body != [] {
      assert r.body[|before|] == body[0] && !IsWhite(r.body[|before|]);
    } else {
      assert r.body == before + after;
    }
  }

  /** Exactly the sendable records can be sent, and each is received unchanged. */
  lemma PayloadRoundTrip(w: Wire, r: Record)
    requires Faithful(w)
    ensures EncodePayload(w, r).Some? <==> Sendable(w, r)
    ensures EncodePayload(w, r).Some? ==> DecodePayload(w, EncodePayload(w, r).value) == Submission(r)
  {
    hide Trim, Sendable;
    SendableMeans(w, r);
    if WellFormed(w, r) { assert (MAGIC + w.serialize(r))[|MAGIC|..] == w.serialize(r); }
  }

  /** Whatever bytes arrive, a payload in the record family is never taken for plain text or an ill-formed record. */
  lemma NeverFallsBack(w: Wire, payload: bytes)
    ensures DecodePayload(w, payload) == PlainText <==> !(FAMILY <= payload)
    ensures DecodePayload(w, payload).Submission? ==> Sendable(w, DecodePayload(w, payload).record)
  {
    hide Sendable;
    assert MAGIC[..|FAMILY|] == FAMILY;
    if MAGIC <= payload { assert payload[..|FAMILY|] == FAMILY; }
    if DecodePayload(w, payload).Submission? { SendableMeans(w, DecodePayload(w, payload).record); }
  }

  lemma MagicSpelt(i: nat)
    requires i < |MAGIC|
    ensures var text := "alan-input-v1\n"; |text| == |MAGIC| && MAGIC[i] == text[i] as int && FAMILY == MAGIC[..11]
  {
  }

  // ------------------------------------------------------------- the stream

  /** The payloads of well-formed records, in order. */
  function Payloads(w: Wire, records: seq<Record>): seq<bytes>
    requires forall i :: 0 <= i < |records| ==> WellFormed(w, records[i])
  {
    seq(|records|, i requires 0 <= i < |records| => EncodePayload(w, records[i]).value)
  }

  function DecodeAll(w: Wire, payloads: seq<bytes>): seq<Decoded>
  {
    seq(|payloads|, i requires 0 <= i < |payloads| => DecodePayload(w, payloads[i]))
  }

  function Submissions(records: seq<Record>): seq<Decoded>
  {
    seq(|records|, i requires 0 <= i < |records| => Submission(records[i]))
  }

  lemma DecodePayloads(w: Wire, records: seq<Record>, n: nat)
    requires Faithful(w) && n <= |records| && forall i :: 0 <= i < |records| ==> WellFormed(w, records[i])
    ensures DecodeAll(w, Payloads(w, records)[..n]) == Submissions(records[..n])
  {
    hide WellFormed, Sendable, EncodePayload, DecodePayload;
    forall i | 0 <= i < n ensures DecodePayload(w, Payloads(w, records)[..n][i]) == Submission(records[..n][i]) {
      SendableMeans(w, records[i]);
      PayloadRoundTrip(w, records[i]);
    }
  }

  /**
   * If a run of the agent file server commits the payloads of some records, draining `io/input`
   * gives back those records in order, and draining any part of the stream seen so far gives
   * back the first few of them.
   */
  lemma SubmissionsArrive(
      w: Wire, records: seq<Record>, env: AgentFs.Env, start: AgentFs.State, ops: seq<AgentFs.Op>, seen: nat)
    requires Faithful(w) && forall i :: 0 <= i < |records| ==> WellFormed(w, records[i])
    requires K.CollisionFree(env.hashing) && I.Inv(env, start) && I.NeverWraps(env, start, ops)
    requires AgentFs.LogOf(start, AgentFs.Input) == [] && R.Messages(env, start, ops) == Payloads(w, records)
    requires seen <= |AgentFs.LogOf(AgentFs.Run(env, start, ops), AgentFs.Input)|
    ensures var stream := AgentFs.LogOf(AgentFs.Run(env, start, ops), AgentFs.Input);
            && DecodeAll(w, Decode(stream)) == Submissions(records)
            && exists n :: 0 <= n <= |records| && DecodeAll(w, Decode(stream[..seen])) == Submissions(records[..n])
  {
    hide AgentFs.Run, I.Inv, I.NeverWraps, R.Messages, AgentFs.LogOf, Decode, WellFormed;
    R.InputRoundTrip(env, start, ops, seen);
    var stream, sent := AgentFs.LogOf(AgentFs.Run(env, start, ops), AgentFs.Input), Payloads(w, records);
    DecodePayloads(w, records, |records|);
    assert sent[..|sent|] == sent && records[..|records|] == records;
    var n := |Decode(stream[..seen])|;
    assert Decode(stream[..seen]) == sent[..n];
    DecodePayloads(w, records, n);
  }

  // -------------------------------------------------- a single-frame reader

  /** A reader that insists on exactly one complete frame holding a record. */
  function SingleRecord(w: Wire, raw: bytes): Option<Record>
  {
    var end := LineEnd(raw);
    if end == |raw| || !Utf8.IsText(raw[..end]) then None
    else
      var payload := raw[end + 1..];
      if ParseUnsigned(raw[..end]) != Some(|payload|) then None
      else match DecodePayload(w, payload)
        case Submission(r) => Some(r)
        case _ => None
  }

  /** It agrees with the stream reader on streams of one frame, and refuses everything else. */
  lemma SingleRecordAgrees(w: Wire, raw: bytes, r: Record)
    ensures SingleRecord(w, raw) == Some(r) <==>
              Unframe(raw).Some? && Unframe(raw).value.1 == [] &&
                DecodePayload(w, Unframe(raw).value.0) == Submission(r)
  {
    hide DecodePayload;
    var end := LineEnd(raw);
    if end < |raw| && ParseUnsigned(raw[..end]).Some? {
      DigitsAreText(raw[..end]);
      var n := ParseUnsigned(raw[..end]).value;
      if end + 1 + n == |raw| { assert raw[end + 1..end + 1 + n] == raw[end + 1..]; }
    }
  }

  /** A byte string that parses as a number is plain ASCII. */
  lemma DigitsAreText(b: bytes)
    requires ParseUnsigned(b).Some?
    ensures Utf8.IsText(b)
  {
    forall i | 0 <= i < |b| ensures b[i] < 128 {
      if b[0] != 43 { assert IsDigit(b[i]); } else if i > 0 { assert b[1..][i - 1] == b[i] && IsDigit(b[1..][i - 1]); }
    }
    AsciiIsText(b);
  }

  lemma {:induction false} AsciiIsText(b: bytes)
    requires forall i :: 0 <= i < |b| ==> b[i] < 128
    ensures Utf8.IsText(b)
  {
    if b != [] {
      assert Utf8.HeadOf(b) == Utf8.Complete(1);
      AsciiIsText(b[1..]);
    }
  }
}
