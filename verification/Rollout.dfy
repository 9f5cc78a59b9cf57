/** The append-only rollout file: one JSON record per line, read back after a crash. */
module Rollout {
  import opened Bytes
  import opened Text
  import U = Utf8

  /** `Eof` is a JSON error at the end of the input. */
  datatype Parse<T> = Parsed(item: T) | Eof | Bad

  /** The JSON serializer and parser of one record type. */
  datatype Codec<!T> = Codec(serialize: T -> string, parse: string -> Parse<T>)

  /** What the JSON library promises: records are single-line objects, and cutting one short is an `Eof`. */
  ghost predicate Faithful<T(!new)>(c: Codec<T>)
  {
    && (forall x: T :: c.parse(c.serialize(x)) == Parsed(x))
    && (forall x: T :: c.serialize(x) != [] && Tight(c.serialize(x)) && '\n' !in c.serialize(x))
    && (forall x: T, k :: 0 < k < |c.serialize(x)| ==> c.parse(c.serialize(x)[..k]) == Eof)
  }

  // ---------------------------------------------------------------- writing

  function Json<T>(c: Codec<T>, item: T): bytes { U.Encode(c.serialize(item)) }

  function Line<T>(c: Codec<T>, item: T): bytes { Json(c, item) + [NEWLINE] }

  function Written<T>(c: Codec<T>, items: seq<T>): bytes
  {
    if items == [] then [] else Line(c, items[0]) + Written(c, items[1..])
  }

  method PersistItems<T>(c: Codec<T>, file: bytes, items: seq<T>) returns (r: bytes)
    ensures r == file + Written(c, items)
  {
    r := file;
    assert items[0..] == items;
    for i := 0 to |items|
      invariant r + Written(c, items[i..]) == file + Written(c, items)
    {
      assert items[i..][1..] == items[i + 1..];
      r := r + Json(c, items[i]);
      r := r + [NEWLINE];
    }
  }

  // ---------------------------------------------------------------- reading

  function Lines(b: bytes): (r: seq<bytes>)
    ensures r != []
  {
    SplitOn(b, NEWLINE)
  }

  datatype Reading<T> = Blank | Record(item: T) | Torn | Corrupt

  function ReadLine<T>(c: Codec<T>, line: bytes): Reading<T>
  {
    match U.Validate(line)
    case Incomplete => Torn
    case Invalid => Corrupt
    case Valid =>
      var text := Trim(U.Decode(line));
      if text == [] then Blank
      else match c.parse(text)
        case Parsed(item) => Record(item)
        case Eof => Torn
        case Bad => Corrupt
  }

  datatype Loaded<T> = Items(items: seq<T>) | Failed(line: nat)

  predicate Terminated(b: bytes) { b != [] && b[|b| - 1] == NEWLINE }

  /** A line that loading accepts; only an unterminated last line may be torn. */
  predicate Acceptable<T>(r: Reading<T>, tail: bool) { r.Blank? || r.Record? || (tail && r.Torn?) }

  /** The records among the lines, in order. */
  function Records<T>(c: Codec<T>, lines: seq<bytes>): seq<T>
  {
    if lines == [] then []
    else
      var r := ReadLine(c, lines[|lines| - 1]);
      Records(c, lines[..|lines| - 1]) + if r.Record? then [r.item] else []
  }

  /** Line `i` of a file may stand as it is. */
  predicate Stands<T>(c: Codec<T>, content: bytes, i: nat)
    requires i < |Lines(content)|
  {
    Acceptable(ReadLine(c, Lines(content)[i]), i == |Lines(content)| - 1 && !Terminated(content))
  }

  /** Every line stands, and `items` are all the records. */
  ghost predicate Loads<T>(c: Codec<T>, content: bytes, items: seq<T>)
  {
    items == Records(c, Lines(content)) && forall i :: 0 <= i < |Lines(content)| ==> Stands(c, content, i)
  }

  // ------------------------------------------------------- what loading means

  /** The trimmed text of a line that is valid UTF-8. */
  function TextOf(line: bytes): string
    requires U.IsText(line)
  {
    Trim(U.Decode(line))
  }

  /** Valid UTF-8 that is blank or holds a record. */
  predicate Whole<T>(c: Codec<T>, line: bytes)
  {
    U.IsText(line) && (TextOf(line) == [] || c.parse(TextOf(line)).Parsed?)
  }

  /** Stops inside a character, or its JSON ends too early. */
  predicate CutShort<T>(c: Codec<T>, line: bytes)
  {
    U.Validate(line) == U.Incomplete || (U.IsText(line) && TextOf(line) != [] && c.parse(TextOf(line)) == Eof)
  }

  predicate HasRecord<T>(c: Codec<T>, line: bytes)
  {
    U.IsText(line) && TextOf(line) != [] && c.parse(TextOf(line)).Parsed?
  }

  /** Line `i` is the last, and the file does not end in a newline. */
  predicate IsTail(content: bytes, i: nat)
  {
    i == |Lines(content)| - 1 && (content == [] || content[|content| - 1] != NEWLINE)
  }

  predicate Faulty<T>(c: Codec<T>, content: bytes, i: nat)
    requires i < |Lines(content)|
  {
    var line := Lines(content)[i];
    || U.Validate(line) == U.Invalid
    || (U.IsText(line) && TextOf(line) != [] && c.parse(TextOf(line)) == Bad)
    || (CutShort(c, line) && !IsTail(content, i))
  }

  /** `items` are what the lines numbered `at` hold, in order, and no other line holds a record. */
  ghost predicate Collects<T>(c: Codec<T>, lines: seq<bytes>, items: seq<T>, at: seq<nat>)
  {
    && |at| == |items| && (forall j, k :: 0 <= j < k < |at| ==> at[j] < at[k])
    && (forall j :: 0 <= j < |at| ==>
          && at[j] < |lines| && HasRecord(c, lines[at[j]])
          && c.parse(TextOf(lines[at[j]])) == Parsed(items[j]))
    && forall i :: 0 <= i < |lines| && HasRecord(c, lines[i]) ==> i in at
  }

  /** The records of the lines, in order. */
  ghost predicate RecordsOf<T>(c: Codec<T>, lines: seq<bytes>, items: seq<T>)
  {
    exists at :: Collects(c, lines, items, at)
  }

  lemma LineMeans<T>(c: Codec<T>, content: bytes, i: nat)
    requires i < |Lines(content)|
    ensures var line := Lines(content)[i];
            && (Stands(c, content, i) <==> Whole(c, line) || (CutShort(c, line) && IsTail(content, i)))
            && (Stands(c, content, i) <==> !Faulty(c, content, i))
  {
    hide U.Decode, Trim, Lines;
  }

  lemma {:induction false} RecordsCollected<T>(c: Codec<T>, lines: seq<bytes>) returns (at: seq<nat>)
    ensures Collects(c, lines, Records(c, lines), at)
    decreases |lines|
  {
    hide U.Decode, U.Validate, Trim;
    at := [];
    if lines != [] {
      var n := |lines| - 1;
      at := RecordsCollected(c, lines[..n]);
      if HasRecord(c, lines[n]) { at := at + [n]; }
    }
  }

  /**
   * For every file: loading succeeds iff each line is blank or a record, except that the last one
   * may be cut short if the file does not end in a newline. It then returns the records of all lines,
   * in order, so at most that one line is dropped. Otherwise it names the first line at fault.
   */
  method LoadHistory<T>(c: Codec<T>, content: bytes) returns (r: Loaded<T>)
    ensures r.Items? <==> forall i :: 0 <= i < |Lines(content)| ==>
                            Whole(c, Lines(content)[i]) || (CutShort(c, Lines(content)[i]) && IsTail(content, i))
    ensures r.Items? ==> RecordsOf(c, Lines(content), r.items) && Loads(c, content, r.items)
    ensures r.Failed? ==> 1 <= r.line <= |Lines(content)| && Faulty(c, content, r.line - 1)
    ensures r.Failed? ==> forall i :: 0 <= i < r.line - 1 ==> !Faulty(c, content, i)
  {
    hide U.Validate, U.Decode, Trim, Lines, Faulty, Whole, CutShort, IsTail, RecordsOf, Collects, Records;
    var lines := Lines(content);
    forall i | 0 <= i < |lines|
      ensures Stands(c, content, i) <==> Whole(c, lines[i]) || (CutShort(c, lines[i]) && IsTail(content, i))
      ensures Stands(c, content, i) <==> !Faulty(c, content, i)
    {
      LineMeans(c, content, i);
    }
    assert RecordsOf(c, lines, Records(c, lines)) by { CollectedRecords(c, lines); }
    var items := [];
    assert Records(c, lines[..0]) == [] by { NoRecords(c); }
    for i := 0 to |lines|
      invariant items == Records(c, lines[..i])
      invariant forall j :: 0 <= j < i ==> Stands(c, content, j)
    {
      RecordsStep(c, lines, i);
      var tail := i == |lines| - 1 && !Terminated(content);
      if U.Validate(lines[i]) == U.Incomplete && tail {
        assert lines[..i + 1] == lines && Stands(c, content, i) && items + [] == items;
        return Items(items);
      }
      if U.Validate(lines[i]) != U.Valid { return Failed(i + 1); }
      var text := Trim(U.Decode(lines[i]));
      if text == [] { continue; }
      match c.parse(text) {
        case Parsed(item) => { items := items + [item]; }
        case Eof => {
          if tail {
            assert lines[..i + 1] == lines && Stands(c, content, i) && items + [] == items;
            return Items(items);
          }
          return Failed(i + 1);
        }
        case Bad => { return Failed(i + 1); }
      }
    }
    assert lines[..|lines|] == lines;
    r := Items(items);
  }

  lemma NoRecords<T>(c: Codec<T>)
    ensures Records(c, []) == []
  {
  }

  lemma RecordsStep<T>(c: Codec<T>, lines: seq<bytes>, i: nat)
    requires i < |lines|
    ensures Records(c, lines[..i + 1]) ==
            Records(c, lines[..i]) + match ReadLine(c, lines[i]) case Record(item) => [item] case _ => []
  {
    hide ReadLine;
    assert lines[..i + 1][..i] == lines[..i];
  }

  lemma CollectedRecords<T>(c: Codec<T>, lines: seq<bytes>)
    ensures RecordsOf(c, lines, Records(c, lines))
  {
    hide Records;
    var at := RecordsCollected(c, lines);
  }

  // --------------------------------------------------------- crash recovery

  /** How many records still have all their JSON bytes after the file is cut to `k` bytes. */
  function Survivors<T>(c: Codec<T>, items: seq<T>, k: nat): (n: nat)
    ensures n <= |items|
  {
    if items == [] || k < |Json(c, items[0])| then 0
    else if k == |Json(c, items[0])| then 1
    else 1 + Survivors(c, items[1..], k - |Line(c, items[0])|)
  }

  /** Record `i` survives iff its JSON ends within the first `k` bytes of the file. */
  lemma {:induction false} SurvivorsMeans<T>(c: Codec<T>, items: seq<T>, k: nat, i: nat)
    requires i < |items|
    ensures i < Survivors(c, items, k) <==> |Written(c, items[..i])| + |Json(c, items[i])| <= k
    decreases i
  {
    if i > 0 {
      assert items[..i][0] == items[0] && items[..i][1..] == items[1..][..i - 1];
      if k > |Json(c, items[0])| { SurvivorsMeans(c, items[1..], k - |Line(c, items[0])|, i - 1); }
    } else {
      assert items[..0] == [];
    }
  }

  lemma {:induction false} RecordsPrepend<T>(c: Codec<T>, line: bytes, rest: seq<bytes>)
    ensures Records(c, [line] + rest) == Records(c, [line]) + Records(c, rest)
    decreases |rest|
  {
    if rest == [] {
      assert [line] + rest == [line];
    } else {
      assert ([line] + rest)[..|rest|] == [line] + rest[..|rest| - 1];
      RecordsPrepend(c, line, rest[..|rest| - 1]);
    }
  }

  lemma RecordsOne<T>(c: Codec<T>, line: bytes)
    ensures Records(c, [line]) == match ReadLine(c, line) case Record(x) => [x] case _ => []
  {
    assert [line][..0] == [];
  }

  lemma {:induction false} EncodeOneLine(s: string)
    requires '\n' !in s
    ensures NEWLINE !in U.Encode(s)
  {
    if s != [] {
      assert '\n' !in s[1..] && s[0] != '\n';
      EncodeOneLine(s[1..]);
      EncodeCharPlain(s[0]);
    }
  }

  lemma EncodeCharPlain(ch: char)
    requires ch != '\n'
    ensures NEWLINE !in U.EncodeChar(ch)
  {
    var v := ch as int;
    if v >= 0x80 { assert forall i :: 0 <= i < |U.EncodeChar(ch)| ==> U.EncodeChar(ch)[i] >= 0x80; }
  }

  lemma ReadJson<T(!new)>(c: Codec<T>, item: T)
    requires Faithful(c)
    ensures ReadLine(c, Json(c, item)) == Record(item) && NEWLINE !in Json(c, item) && Json(c, item) != []
  {
    var s := c.serialize(item);
    U.DecodeEncode(s);
    TrimTight(s);
    EncodeOneLine(s);
  }

  /** A record cut short reads as torn, wherever the cut falls. */
  lemma ReadCutJson<T(!new)>(c: Codec<T>, item: T, k: nat)
    requires Faithful(c) && 0 < k < |Json(c, item)|
    ensures ReadLine(c, Json(c, item)[..k]) == Torn
  {
    var s := c.serialize(item);
    U.EncodeIsText(s);
    U.PrefixOfText(U.Encode(s), k);
    if U.IsText(U.Encode(s)[..k]) {
      var j := U.CutBetweenChars(s, k);
      U.DecodeEncode(s[..j]);
      TrimCut(s, j);
    }
  }

  /** Trimming a non-empty prefix of tight text leaves a non-empty prefix. */
  lemma TrimCut(s: string, j: nat)
    requires Tight(s) && 0 < j < |s|
    ensures exists m :: 0 < m < |s| && Trim(s[..j]) == s[..m]
  {
    var p := s[..j];
    assert TrimStart(p) == p;
    TrimEndTight(p);
    TrimEndNonEmpty(p);
    var m := |TrimEnd(p)|;
    assert s[..m] == p[..m];
  }

  lemma {:induction false} TrimEndNonEmpty(p: string)
    requires p != [] && !IsWhite(p[0])
    ensures TrimEnd(p) != []
    decreases |p|
  {
    if |p| > 1 && IsWhite(p[|p| - 1]) { TrimEndNonEmpty(p[..|p| - 1]); }
  }

  lemma LoadsPrepend<T(!new)>(c: Codec<T>, item: T, rest: bytes, items: seq<T>)
    requires Faithful(c) && Loads(c, rest, items)
    ensures Loads(c, Line(c, item) + rest, [item] + items)
  {
    hide ReadLine;
    ReadJson(c, item);
    var line, ls := Json(c, item), Lines(rest);
    SplitOne(line, NEWLINE);
    SplitConcat(line, NEWLINE, rest);
    RecordsPrepend(c, line, ls);
    RecordsOne(c, line);
    var content := Line(c, item) + rest;
    assert content == line + [NEWLINE] + rest;
    assert rest != [] ==> content[|content| - 1] == rest[|rest| - 1];
    assert Lines(content) == [line] + ls;
    assert rest == [] ==> ls == [[]] && ReadLine(c, []) == Blank by { EmptyIsBlank(c); }
    forall i | 0 <= i < |ls| + 1
      ensures Stands(c, content, i)
    {
      if i > 0 { assert ([line] + ls)[i] == ls[i - 1] && Stands(c, rest, i - 1); }
    }
  }

  lemma EmptyIsBlank<T>(c: Codec<T>)
    ensures ReadLine(c, []) == Blank
  {
  }

  lemma LoadsOne<T>(c: Codec<T>, line: bytes)
    requires NEWLINE !in line && !ReadLine(c, line).Corrupt?
    ensures Loads(c, line, match ReadLine(c, line) case Record(x) => [x] case _ => [])
  {
    hide ReadLine;
    SplitOne(line, NEWLINE);
    RecordsOne(c, line);
  }

  /** A file that stops inside its first record, or just before that record's newline. */
  lemma LoadsCut<T(!new)>(c: Codec<T>, item: T, k: nat)
    requires Faithful(c) && k <= |Json(c, item)|
    ensures Loads(c, Json(c, item)[..k], if k == |Json(c, item)| then [item] else [])
  {
    hide ReadLine;
    var cut := Json(c, item)[..k];
    ReadJson(c, item);
    if k == 0 {
      EmptyIsBlank(c);
    } else if k < |Json(c, item)| {
      ReadCutJson(c, item, k);
    } else {
      assert cut == Json(c, item);
    }
    LoadsOne(c, cut);
  }

  /**
   * Whatever prefix of the written file a crash leaves, loading it succeeds and returns exactly
   * the records whose JSON bytes are all there, in order.
   */
  lemma {:induction false} CrashRecovery<T(!new)>(c: Codec<T>, items: seq<T>, k: nat)
    requires Faithful(c) && k <= |Written(c, items)|
    ensures Loads(c, Written(c, items)[..k], items[..Survivors(c, items, k)])
    decreases |items|
  {
    hide ReadLine, Json, Loads;
    var file := Written(c, items);
    if items == [] {
      EmptyIsBlank(c);
      LoadsOne(c, []);
      assert file[..k] == [] && items[..Survivors(c, items, k)] == [];
    } else {
      var json, line, rest := Json(c, items[0]), Line(c, items[0]), Written(c, items[1..]);
      if k <= |json| {
        LoadsCut(c, items[0], k);
        assert file[..k] == json[..k];
        assert items[..Survivors(c, items, k)] == if k == |json| then [items[0]] else [];
      } else {
        var n := Survivors(c, items[1..], k - |line|);
        CrashRecovery(c, items[1..], k - |line|);
        LoadsPrepend(c, items[0], rest[..k - |line|], items[1..][..n]);
        assert file[..k] == line + rest[..k - |line|];
        assert items[..n + 1] == [items[0]] + items[1..][..n];
      }
    }
  }

  /** An uncut file gives back everything that was written. */
  lemma LoadsWritten<T(!new)>(c: Codec<T>, items: seq<T>)
    requires Faithful(c)
    ensures Loads(c, Written(c, items), items)
  {
    var file := Written(c, items);
    CrashRecovery(c, items, |file|);
    assert file[..|file|] == file;
    AllSurvive(c, items);
    assert items[..|items|] == items;
  }

  lemma {:induction false} AllSurvive<T>(c: Codec<T>, items: seq<T>)
    ensures Survivors(c, items, |Written(c, items)|) == |items|
  {
    if items != [] { AllSurvive(c, items[1..]); }
  }
}
