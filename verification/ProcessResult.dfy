/** The terminal record an agent executable appends to its process output. */
module ProcessResult {
  import opened Bytes

  datatype Status = Completed | Paused | Failed
  datatype Pause = Pause(requestId: string, kind: string)

  datatype Result = Result(
    version: nat, status: Status, outputText: string, warnings: seq<string>,
    errorMessage: Option<string>, pause: Option<Pause>)

  datatype Codec = Codec(serialize: Result -> bytes, parse: bytes -> Option<Result>)

  /** What the JSON library promises: parsing undoes serializing, and control bytes are escaped. */
  ghost predicate Faithful(c: Codec)
  {
    && (forall r :: c.parse(c.serialize(r)) == Some(r))
    && (forall r :: NEWLINE !in c.serialize(r))
  }

  /** A newline, the record separator (30), then `alan-agent-result-v1:`. */
  const PREFIX: bytes := [
    10, 30, 97, 108, 97, 110, 45, 97, 103, 101, 110, 116, 45, 114, 101, 115, 117, 108, 116, 45, 118, 49, 58]

  function RecordOf(c: Codec, r: Result): bytes { PREFIX + c.serialize(r) }

  predicate OccursAt(b: bytes, i: nat) { i + |PREFIX| <= |b| && b[i..i + |PREFIX|] == PREFIX }

  /** The last place the prefix occurs at or before `i`. */
  function LastPrefix(b: bytes, i: nat): (r: Option<nat>)
    ensures r.Some? ==> r.value <= i && OccursAt(b, r.value)
    ensures forall j: nat :: j <= i && OccursAt(b, j) ==> r.Some? && j <= r.value
  {
    if OccursAt(b, i) then Some(i) else if i == 0 then None else LastPrefix(b, i - 1)
  }

  predicate ShapeIsValid(r: Result)
  {
    match r.status
    case Completed => r.errorMessage.None? && r.pause.None?
    case Paused => r.errorMessage.None? && r.pause.Some?
    case Failed => r.errorMessage.Some? && r.pause.None?
  }

  datatype Outcome = Ok(result: Result) | Absent | Unparsable | Unsupported | Misshapen

  function FromProcessOutput(c: Codec, output: bytes): Outcome
  {
    match LastPrefix(output, |output|)
    case None => Absent
    case Some(offset) =>
      match c.parse(output[offset + |PREFIX|..])
      case None => Unparsable
      case Some(r) =>
        if r.version != 1 then Unsupported
        else if !ShapeIsValid(r) then Misshapen
        else Ok(r)
  }

  /** The last record starts where it was appended, whatever the output before it looks like. */
  lemma LastPrefixOfRecord(c: Codec, output: bytes, r: Result)
    requires Faithful(c)
    ensures var b := output + RecordOf(c, r);
            LastPrefix(b, |b|) == Some(|output|)
  {
    var b, at := output + RecordOf(c, r), |output|;
    assert b[at..at + |PREFIX|] == PREFIX;
    assert OccursAt(b, at);
    forall j: nat | at < j < |b| ensures b[j] != NEWLINE {
      assert b[j] == RecordOf(c, r)[j - at];
      if j - at >= |PREFIX| { assert b[j] == c.serialize(r)[j - at - |PREFIX|]; }
    }
    forall j: nat | OccursAt(b, j) ensures j < |b| && b[j] == NEWLINE {
      assert b[j] == b[j..j + |PREFIX|][0];
    }
  }

  /** What an executable can end with, as it builds its records. */
  function CompletedWith(text: string, warnings: seq<string>): Result
  {
    Result(1, Completed, text, warnings, None, None)
  }

  function PausedWith(text: string, warnings: seq<string>, pause: Pause): Result
  {
    Result(1, Paused, text, warnings, None, Some(pause))
  }

  function FailedWith(text: string, warnings: seq<string>, message: string): Result
  {
    Result(1, Failed, text, warnings, Some(message), None)
  }

  /** A record an executable can emit. */
  ghost predicate Emitted(r: Result)
  {
    || (exists text, warnings :: r == CompletedWith(text, warnings))
    || (exists text, warnings, pause :: r == PausedWith(text, warnings, pause))
    || (exists text, warnings, message :: r == FailedWith(text, warnings, message))
  }

  lemma EmittedMeans(r: Result)
    ensures Emitted(r) <==> r.version == 1 && ShapeIsValid(r)
  {
    match r.status
    case Completed =>
      if r.version == 1 && ShapeIsValid(r) { assert r == CompletedWith(r.outputText, r.warnings); }
    case Paused =>
      if r.version == 1 && ShapeIsValid(r) { assert r == PausedWith(r.outputText, r.warnings, r.pause.value); }
    case Failed =>
      if r.version == 1 && ShapeIsValid(r) { assert r == FailedWith(r.outputText, r.warnings, r.errorMessage.value); }
  }

  /**
   * Reading back after any output at all, earlier records included: the appended record comes
   * back iff an executable could have emitted it, and otherwise the error says what is wrong.
   */
  lemma TerminalRoundTrip(c: Codec, output: bytes, r: Result)
    requires Faithful(c)
    ensures FromProcessOutput(c, output + RecordOf(c, r)) ==
              if Emitted(r) then Ok(r) else if r.version != 1 then Unsupported else Misshapen
  {
    hide ShapeIsValid, Emitted;
    LastPrefixOfRecord(c, output, r);
    EmittedMeans(r);
    var b := output + RecordOf(c, r);
    assert b[|output| + |PREFIX|..] == c.serialize(r);
  }

  /** Whatever the output, only a record that could have been emitted is ever accepted. */
  lemma AcceptedIsEmitted(c: Codec, output: bytes)
    ensures FromProcessOutput(c, output).Ok? ==> Emitted(FromProcessOutput(c, output).result)
  {
    hide ShapeIsValid, Emitted;
    if FromProcessOutput(c, output).Ok? { EmittedMeans(FromProcessOutput(c, output).result); }
  }

  lemma PrefixSpelt(i: nat)
    requires i < |PREFIX|
    ensures var text := "\n\U{1E}alan-agent-result-v1:"; |text| == |PREFIX| && PREFIX[i] == text[i] as int
  {
  }

  /** Only a record can be read: output that never shows the prefix gives nothing. */
  lemma AbsentExactly(c: Codec, output: bytes)
    ensures FromProcessOutput(c, output) == Absent <==> forall i: nat :: !OccursAt(output, i)
  {
    hide OccursAt;
    forall i: nat | OccursAt(output, i) ensures i <= |output| { OccursWithin(output, i); }
  }

  lemma OccursWithin(b: bytes, i: nat)
    ensures OccursAt(b, i) ==> i <= |b|
  {
  }
}
