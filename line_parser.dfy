/**
 * The line parser of `parse_data_to_json.py`: one whitespace-delimited line
 * becomes a request record, by a positional and lexical heuristic (request
 * number, a category of at most two tokens, a name running up to the first
 * date-shaped token, five date/time tokens, free text), and a file of lines
 * becomes the list of the records that parsed.
 *
 * The regular expression that finds `.DAT` names in the free text is a
 * parameter, `scan`; only the deduplication of what it finds is modelled.
 */
module LineParser {
  import opened Wrappers
  import opened Text
  import opened Seqs
  import opened Records

  /** What `parse_line` makes of one line. `Blank`, `TooFewFields` and `MissingDateFields` are
      its three `None` returns; `DateSplitError` is the ValueError raised when a date token
      does not unpack into exactly three '/'-separated pieces. */
  datatype LineOutcome =
    | Blank
    | TooFewFields
    | MissingDateFields
    | DateSplitError
    | Parsed(record: Record)

  /** `parse_date`: "D/M/Y" becomes "Y/M/D" by splitting on '/' alone; any other number of
      '/' is the unpacking error. */
  function ParseDate(s: string): (r: Option<string>)
    ensures r.Some? <==> CountChar(s, '/') == 2
  {
    var p := SplitOn(s, '/');
    if |p| == 3 then Some(p[2] + "/" + p[1] + "/" + p[0]) else None
  }

  lemma ParseDateOfParts(d: string, m: string, y: string)
    requires '/' !in d && '/' !in m && '/' !in y
    ensures ParseDate(d + "/" + m + "/" + y) == Some(y + "/" + m + "/" + d)
  {
    JoinThree(d, m, y);
    SplitOnJoin([d, m, y], '/');
  }

  /** Reordering is its own inverse: applying `parse_date` to its result gives the input back. */
  lemma ParseDateInvolution(s: string)
    requires ParseDate(s).Some?
    ensures ParseDate(ParseDate(s).value) == Some(s)
  {
    var p := SplitOn(s, '/');
    SplitOnPieces(s, '/');
    ParseDateOfParts(p[2], p[1], p[0]);
    JoinSplitOn(s, '/');
    JoinThree(p[0], p[1], p[2]);
    assert p == [p[0], p[1], p[2]];
  }

  lemma JoinThree(a: string, b: string, c: string)
    ensures Join("/", [a, b, c]) == a + "/" + b + "/" + c
  {
    assert [a, b, c][1..] == [b, c];
    assert [b, c][1..] == [c];
    assert Join("/", [b, c]) == b + "/" + c;
  }

  /** `parse_datetime`: the reordered date, a space, and the time unchanged. */
  function ParseDateTime(date: string, time: string): (r: Option<string>)
    ensures r.Some? <==> CountChar(date, '/') == 2
    ensures r.Some? ==> r.value == ParseDate(date).value + " " + time
  {
    match ParseDate(date)
    case None => None
    case Some(d) => Some(d + " " + time)
  }

  /** The date-shape test of the name loop: the token STARTS with two digits, '/', two digits,
      '/', four digits; whatever follows is not looked at. */
  predicate IsDateShaped(t: string)
  {
    |t| >= 10 && IsDigit(t[0]) && IsDigit(t[1]) && t[2] == '/' && IsDigit(t[3]) && IsDigit(t[4])
    && t[5] == '/' && IsDigit(t[6]) && IsDigit(t[7]) && IsDigit(t[8]) && IsDigit(t[9])
  }

  /** The condition of the category loop as Python groups it (`and` binds tighter than `or`):
      either the token neither starts with "RITM" nor has an upper-case first letter, or it is
      one of the two words "Risk" and "Rolling". Tokens from splitting are never empty; the
      empty string, whose first letter the source cannot take, is not a category token. */
  predicate IsCategoryToken(t: string)
  {
    t != [] && ((!StartsWith(t, "RITM") && !IsUpperChar(t[0])) || t in ["Risk", "Rolling"])
  }

  /** The condition also reads "not RITM-prefixed, and either not upper-initial or a known
      category word": the two groupings agree because both known words start with "R" but not "RITM". */
  lemma CategoryTokenGrouping(t: string)
    requires t != []
    ensures IsCategoryToken(t) <==> !StartsWith(t, "RITM") && (!IsUpperChar(t[0]) || t in ["Risk", "Rolling"])
  {
    if t in ["Risk", "Rolling"] {
      assert !StartsWith(t, "RITM") by { assert t[1] != 'I'; }
    }
  }

  /** Nothing in the condition looks for digits: a leading date-shaped token is taken as category. */
  lemma DigitInitialIsCategoryToken(t: string)
    requires t != [] && IsDigit(t[0])
    ensures IsCategoryToken(t)
  {
  }

  /** Where the category loop stops: the first index from 1 whose token is not a category
      token, but after at most two tokens. */
  function CategoryEnd(parts: seq<string>): (c: nat)
    requires |parts| >= 3
    ensures 1 <= c <= 3
    ensures forall i :: 1 <= i < c ==> IsCategoryToken(parts[i])
    ensures c < 3 ==> !IsCategoryToken(parts[c])
  {
    if !IsCategoryToken(parts[1]) then 1
    else if !IsCategoryToken(parts[2]) then 2
    else 3
  }

  /** Where the name loop stops: the first index from `i` whose token is date-shaped, or the end. */
  function NameEnd(parts: seq<string>, i: nat): (n: nat)
    requires i <= |parts|
    ensures i <= n <= |parts|
    ensures forall j :: i <= j < n ==> !IsDateShaped(parts[j])
    ensures n < |parts| ==> IsDateShaped(parts[n])
    decreases |parts| - i
  {
    if i == |parts| || IsDateShaped(parts[i]) then i else NameEnd(parts, i + 1)
  }

  /** The tokens of a line: `line.strip().split()`. */
  function LineTokens(line: string): seq<string>
  {
    Split(Strip(line))
  }

  /** The outcome of `parse_line` on `line`, written declaratively over the token positions. */
  function Outcome(line: string, scan: string -> seq<string>): LineOutcome
  {
    var stripped := Strip(line);
    if stripped == [] then Blank
    else
      var parts := Split(stripped);
      if |parts| < 8 then TooFewFields
      else
        var c := CategoryEnd(parts);
        var n := NameEnd(parts, c);
        if n + 5 >= |parts| then MissingDateFields
        else Assemble(parts, c, n, scan)
  }

  /** The record built once the date block starts at `n`: three date conversions, any of
      which may fail, and the free text after the block with the files it names. */
  function Assemble(parts: seq<string>, c: nat, n: nat, scan: string -> seq<string>): LineOutcome
    requires 1 <= c <= n && n + 5 < |parts|
  {
    var details := Join(" ", parts[n + 5..]);
    match (ParseDateTime(parts[n], parts[n + 1]), ParseDateTime(parts[n + 2], parts[n + 3]), ParseDate(parts[n + 4]))
    case (Some(openedOn), Some(updated), Some(completion)) =>
      Parsed(Record(parts[0], Join(" ", parts[1..c]), Join(" ", parts[c..n]), openedOn, updated,
                    completion, details, DedupBy(scan(details), Upper)))
    case _ => DateSplitError
  }

  /** `extract_files` after the regular expression: the `.DAT` names `scan` finds in `text`,
      keeping the first spelling of each name compared case-insensitively. */
  method ExtractFiles(text: string, scan: string -> seq<string>) returns (unique: seq<string>)
    ensures unique == DedupBy(scan(text), Upper)
  {
    var files := scan(text);
    var seen: set<string> := {};
    unique := [];
    for i := 0 to |files|
      invariant unique == DedupBy(files[..i], Upper)
      invariant seen == Keys(unique, Upper)
    {
      var file := files[i];
      assert files[..i + 1][..i] == files[..i];
      if Upper(file) !in seen {
        seen := seen + {Upper(file)};
        unique := unique + [file];
        assert unique[..|unique| - 1] == DedupBy(files[..i], Upper);
      }
    }
    assert files[..|files|] == files;
  }

  /** `parse_line`. */
  method ParseLine(line: string, scan: string -> seq<string>) returns (o: LineOutcome)
    ensures o == Outcome(line, scan)
  {
    var stripped := Strip(line);
    if stripped == [] {
      return Blank;
    }
    var parts := Split(stripped);
    if |parts| < 8 {
      return TooFewFields;
    }
    var catParts, c := CategoryLoop(parts);
    var nameParts, idx := NameLoop(parts, c);
    if idx + 5 >= |parts| {
      return MissingDateFields;
    }
    o := AssembleRecord(parts, c, idx, parts[0], catParts, nameParts, scan);
  }

  /** The category loop of `parse_line`: up to two tokens from index 1 while they pass
      `IsCategoryToken`. */
  method CategoryLoop(parts: seq<string>) returns (catParts: seq<string>, idx: nat)
    requires |parts| >= 8
    ensures idx == CategoryEnd(parts) && catParts == parts[1..idx]
  {
    catParts := [];
    idx := 1;
    // In the source the range test guards only the first alternative of the condition; the
    // loop takes at most two tokens of a line of at least eight, so the index stays in range.
    while idx < |parts| && IsCategoryToken(parts[idx])
      invariant 1 <= idx <= 2
      invariant catParts == parts[1..idx]
      invariant forall j :: 1 <= j < idx ==> IsCategoryToken(parts[j])
      decreases |parts| - idx
    {
      catParts := catParts + [parts[idx]];
      idx := idx + 1;
      if |catParts| >= 2 {
        break;
      }
    }
  }

  /** The name loop of `parse_line`: every token from `c` up to the first date-shaped one. */
  method NameLoop(parts: seq<string>, c: nat) returns (nameParts: seq<string>, idx: nat)
    requires c <= |parts|
    ensures idx == NameEnd(parts, c) && nameParts == parts[c..idx]
  {
    nameParts := [];
    idx := c;
    while idx < |parts| && !IsDateShaped(parts[idx])
      invariant c <= idx <= |parts|
      invariant nameParts == parts[c..idx]
      invariant NameEnd(parts, idx) == NameEnd(parts, c)
      decreases |parts| - idx
    {
      nameParts := nameParts + [parts[idx]];
      idx := idx + 1;
    }
  }

  /** The tail of `parse_line`: the three date conversions and the record they complete. */
  method AssembleRecord(parts: seq<string>, ghost c: nat, idx: nat, number: string, catParts: seq<string>,
                        nameParts: seq<string>, scan: string -> seq<string>) returns (o: LineOutcome)
    requires 1 <= c <= idx && idx + 5 < |parts|
    requires number == parts[0] && catParts == parts[1..c] && nameParts == parts[c..idx]
    ensures o == Assemble(parts, c, idx, scan)
  {
    var details := Join(" ", parts[idx + 5..]);
    var openedAt := ParseDateTime(parts[idx], parts[idx + 1]);
    if openedAt.None? {
      return DateSplitError;
    }
    var updatedOn := ParseDateTime(parts[idx + 2], parts[idx + 3]);
    if updatedOn.None? {
      return DateSplitError;
    }
    var completion := ParseDate(parts[idx + 4]);
    if completion.None? {
      return DateSplitError;
    }
    var files := ExtractFiles(details, scan);
    return Parsed(Record(number, Join(" ", catParts), Join(" ", nameParts), openedAt.value,
                         updatedOn.value, completion.value, details, files));
  }

  /** The result of `parse_file` on a file that it could read: the records, or `None`
      (`ReadFailure`) when an exception escaped the line loop. */
  datatype FileOutcome = Records(records: seq<Record>) | ReadFailure

  /** What `parse_line` makes of each line, in order. */
  function Outcomes(lines: seq<string>, scan: string -> seq<string>): (outs: seq<LineOutcome>)
    ensures |outs| == |lines| && forall i :: 0 <= i < |lines| ==> outs[i] == Outcome(lines[i], scan)
  {
    seq(|lines|, i requires 0 <= i < |lines| => Outcome(lines[i], scan))
  }

  /** The records of the accepted lines, in line order. */
  function Accepted(outs: seq<LineOutcome>): seq<Record>
  {
    if outs == [] then []
    else
      var prev := Accepted(outs[..|outs| - 1]);
      match outs[|outs| - 1]
      case Parsed(r) => prev + [r]
      case _ => prev
  }

  /** Some line raised the date-splitting ValueError. */
  predicate HasSplitError(outs: seq<LineOutcome>)
  {
    exists i :: 0 <= i < |outs| && outs[i].DateSplitError?
  }

  /** The accumulation loop of `parse_file`, line by line: the records so far, until a line
      raises and the handler turns the whole result into `None`. */
  function Collect(outs: seq<LineOutcome>): FileOutcome
  {
    if outs == [] then Records([])
    else Continue(Collect(outs[..|outs| - 1]), outs[|outs| - 1])
  }

  /** One more line: its record is added, a raise loses everything, anything else is skipped. */
  function Continue(sofar: FileOutcome, o: LineOutcome): FileOutcome
  {
    match sofar
    case ReadFailure => ReadFailure
    case Records(rs) =>
      match o
      case DateSplitError => ReadFailure
      case Parsed(r) => Records(rs + [r])
      case _ => Records(rs)
  }

  /** `parse_file` without its I/O: `ParseLine` on every line, in order. */
  method ParseFile(lines: seq<string>, scan: string -> seq<string>) returns (o: FileOutcome)
    ensures o == Collect(Outcomes(lines, scan))
  {
    var records: seq<Record> := [];
    ghost var outs: seq<LineOutcome> := [];
    for i := 0 to |lines|
      invariant outs == Outcomes(lines[..i], scan)
      invariant Collect(outs) == Records(records)
    {
      var record := ParseLine(lines[i], scan);
      OutcomesStep(lines, i, scan);
      assert (outs + [record])[..|outs|] == outs;
      outs := outs + [record];
      if record.DateSplitError? {
        CollectFailureSticks(outs, Outcomes(lines, scan)[i + 1..]);
        OutcomesSplit(lines, i + 1, scan);
        return ReadFailure;
      }
      if record.Parsed? {
        records := records + [record.record];
      }
    }
    assert lines[..|lines|] == lines;
    return Records(records);
  }

  lemma OutcomesStep(lines: seq<string>, i: nat, scan: string -> seq<string>)
    requires i < |lines|
    ensures Outcomes(lines[..i + 1], scan) == Outcomes(lines[..i], scan) + [Outcome(lines[i], scan)]
  {
  }

  lemma OutcomesSplit(lines: seq<string>, i: nat, scan: string -> seq<string>)
    requires i <= |lines|
    ensures Outcomes(lines[..i], scan) + Outcomes(lines, scan)[i..] == Outcomes(lines, scan)
  {
  }

  /** Once a line has raised, no later line brings the records back. */
  lemma {:induction false} CollectFailureSticks(a: seq<LineOutcome>, b: seq<LineOutcome>)
    requires Collect(a).ReadFailure?
    ensures Collect(a + b).ReadFailure?
    decreases |b|
  {
    if b == [] {
      assert a + b == a;
    } else {
      assert (a + b)[..|a + b| - 1] == a + b[..|b| - 1];
      CollectFailureSticks(a, b[..|b| - 1]);
    }
  }

  /** The whole file is lost exactly when some line raises; otherwise the result is the
      records of the accepted lines, in line order. */
  lemma {:induction false} CollectOutcome(outs: seq<LineOutcome>)
    ensures Collect(outs).ReadFailure? <==> HasSplitError(outs)
    ensures Collect(outs).Records? ==> Collect(outs).records == Accepted(outs)
  {
    if outs != [] {
      var prev := outs[..|outs| - 1];
      CollectOutcome(prev);
      if HasSplitError(prev) {
        var i :| 0 <= i < |prev| && prev[i].DateSplitError?;
        assert outs[i] == prev[i];
      }
      if HasSplitError(outs) {
        var i :| 0 <= i < |outs| && outs[i].DateSplitError?;
        if i < |prev| {
          assert prev[i] == outs[i];
        }
      }
    }
  }

  /** Acceptance is per line: the records of two pieces of a file are the records of the whole. */
  lemma {:induction false} AcceptedAppend(a: seq<LineOutcome>, b: seq<LineOutcome>)
    ensures Accepted(a + b) == Accepted(a) + Accepted(b)
    decreases |b|
  {
    if b == [] {
      assert a + b == a;
    } else {
      var b' := b[..|b| - 1];
      assert (a + b)[..|a + b| - 1] == a + b';
      AcceptedAppend(a, b');
    }
  }

  /** One line contributes its record when it parses, and nothing otherwise. */
  lemma AcceptedLine(o: LineOutcome)
    ensures Accepted([o]) == if o.Parsed? then [o.record] else []
  {
    assert [o][..0] == [];
  }

  /** At most one record per line. */
  lemma {:induction false} AcceptedLength(outs: seq<LineOutcome>)
    ensures |Accepted(outs)| <= |outs|
  {
    if outs != [] {
      AcceptedLength(outs[..|outs| - 1]);
    }
  }

  /** Every record comes from a line that parsed to exactly it. */
  lemma {:induction false} AcceptedFromLines(outs: seq<LineOutcome>, k: nat)
    requires k < |Accepted(outs)|
    ensures exists i :: 0 <= i < |outs| && outs[i] == Parsed(Accepted(outs)[k])
  {
    var prev := outs[..|outs| - 1];
    if k < |Accepted(prev)| {
      AcceptedFromLines(prev, k);
      var i :| 0 <= i < |prev| && prev[i] == Parsed(Accepted(prev)[k]);
      assert outs[i] == prev[i];
    } else {
      assert outs[|outs| - 1] == Parsed(Accepted(outs)[k]);
    }
  }

  /** Blank and short lines give no record. */
  lemma EarlyRejection(line: string, scan: string -> seq<string>)
    ensures Outcome(line, scan).Blank? <==> AllSpace(line)
    ensures Outcome(line, scan).TooFewFields? <==> !AllSpace(line) && |LineTokens(line)| < 8
  {
  }

  /** Where the date block starts, and what decides the three late outcomes: too few tokens
      from the stop index, a date token that does not split into three, or a record. */
  lemma DateBlock(line: string, scan: string -> seq<string>) returns (parts: seq<string>, n: nat)
    requires !AllSpace(line) && |LineTokens(line)| >= 8
    ensures parts == LineTokens(line) && AreTokens(parts)
    ensures n == NameEnd(parts, CategoryEnd(parts))
    ensures n == |parts| || IsDateShaped(parts[n])
    ensures Outcome(line, scan).MissingDateFields? <==> |parts| < n + 6
    ensures Outcome(line, scan).DateSplitError? <==>
      n + 6 <= |parts| &&
      (CountChar(parts[n], '/') != 2 || CountChar(parts[n + 2], '/') != 2 || CountChar(parts[n + 4], '/') != 2)
    ensures Outcome(line, scan).Parsed? <==>
      n + 6 <= |parts| &&
      CountChar(parts[n], '/') == 2 && CountChar(parts[n + 2], '/') == 2 && CountChar(parts[n + 4], '/') == 2
  {
    parts := LineTokens(line);
    SplitTokens(Strip(line));
    n := NameEnd(parts, CategoryEnd(parts));
  }

  /** The shape of an accepted line: number, category, name, the five date/time tokens and
      the details, laid end to end, are the tokens of the line. */
  lemma ParsedLayout(line: string, scan: string -> seq<string>) returns (c: nat, n: nat)
    requires Outcome(line, scan).Parsed?
    ensures var parts := LineTokens(line); var r := Outcome(line, scan).record;
      && AreTokens(parts) && 1 <= c <= 3 && c <= n && n + 6 <= |parts|
      && r.number == parts[0]
      && Split(r.catItem) == parts[1..c]
      && Split(r.requestedFor) == parts[c..n]
      && r.requestDetails == Join(" ", parts[n + 5..]) && r.requestDetails != []
      && Split(r.catItem) + Split(r.requestedFor) + parts[n..n + 5] + Split(r.requestDetails) == parts[1..]
      && (forall j :: 1 <= j < c ==> IsCategoryToken(parts[j]))
      && (forall j :: c <= j < n ==> !IsDateShaped(parts[j]))
      && IsDateShaped(parts[n])
      && ParseDateTime(parts[n], parts[n + 1]) == Some(r.openedAt)
      && ParseDateTime(parts[n + 2], parts[n + 3]) == Some(r.sysUpdatedOn)
      && ParseDate(parts[n + 4]) == Some(r.desiredCompletionDate)
      && r.files == DedupBy(scan(r.requestDetails), Upper)
  {
    var parts := LineTokens(line);
    SplitTokens(Strip(line));
    c := CategoryEnd(parts);
    n := NameEnd(parts, c);
    OutcomeUnfold(line, scan);
    AssembleLayout(parts, c, n, scan);
  }

  /** `Outcome` on a line with at least eight tokens. */
  lemma OutcomeUnfold(line: string, scan: string -> seq<string>)
    requires !AllSpace(line) && |LineTokens(line)| >= 8
    ensures AreTokens(LineTokens(line))
    ensures var parts := LineTokens(line); var c := CategoryEnd(parts); var n := NameEnd(parts, c);
      Outcome(line, scan) == if n + 5 >= |parts| then MissingDateFields else Assemble(parts, c, n, scan)
  {
    SplitTokens(Strip(line));
  }

  lemma AssembleLayout(parts: seq<string>, c: nat, n: nat, scan: string -> seq<string>)
    requires AreTokens(parts) && 1 <= c <= n && n + 5 < |parts|
    requires Assemble(parts, c, n, scan).Parsed?
    ensures var r := Assemble(parts, c, n, scan).record;
      && r.number == parts[0]
      && Split(r.catItem) == parts[1..c]
      && Split(r.requestedFor) == parts[c..n]
      && r.requestDetails == Join(" ", parts[n + 5..]) && r.requestDetails != []
      && Split(r.catItem) + Split(r.requestedFor) + parts[n..n + 5] + Split(r.requestDetails) == parts[1..]
      && ParseDateTime(parts[n], parts[n + 1]) == Some(r.openedAt)
      && ParseDateTime(parts[n + 2], parts[n + 3]) == Some(r.sysUpdatedOn)
      && ParseDate(parts[n + 4]) == Some(r.desiredCompletionDate)
      && r.files == DedupBy(scan(r.requestDetails), Upper)
  {
    var r := Assemble(parts, c, n, scan).record;
    assert r.catItem == Join(" ", parts[1..c]) && r.requestedFor == Join(" ", parts[c..n]);
    assert r.requestDetails == Join(" ", parts[n + 5..]);
    TokensOfSlices(parts, c, n);
    JoinNonEmpty(" ", parts[n + 5..]);
    SlicesLaidOut(parts, c, n);
  }

  lemma TokensOfSlices(parts: seq<string>, c: nat, n: nat)
    requires AreTokens(parts) && 1 <= c <= n && n + 5 < |parts|
    ensures Split(Join(" ", parts[1..c])) == parts[1..c]
    ensures Split(Join(" ", parts[c..n])) == parts[c..n]
    ensures Split(Join(" ", parts[n + 5..])) == parts[n + 5..]
    ensures parts[n + 5..] != [] && parts[n + 5..][0] != []
  {
    assert AreTokens(parts[1..c]);
    assert AreTokens(parts[c..n]);
    assert AreTokens(parts[n + 5..]);
    SplitJoin(parts[1..c]);
    SplitJoin(parts[c..n]);
    SplitJoin(parts[n + 5..]);
  }

  lemma SlicesLaidOut(parts: seq<string>, c: nat, n: nat)
    requires 1 <= c <= n && n + 5 < |parts|
    ensures parts[1..c] + parts[c..n] + parts[n..n + 5] + parts[n + 5..] == parts[1..]
  {
  }
}
