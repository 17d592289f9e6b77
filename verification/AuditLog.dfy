/** The audit trail LOG.md: its writer and its parser (store/consolidated.go). */
module AuditLog {
  import opened Text
  import opened Wrappers

  datatype Record = Record(timestamp: string, action: string, details: seq<string>)

  const DASH := " \U{2014} "

  /** Lines, each ended by a newline. */
  function Terminated(lines: seq<string>): string {
    if lines == [] then "" else lines[0] + "\n" + Terminated(lines[1..])
  }

  function Bullets(details: seq<string>): seq<string> {
    seq(|details|, i requires 0 <= i < |details| => "- " + details[i])
  }

  function Header(r: Record): string { "## " + r.timestamp + DASH + r.action }

  /** The lines a record is written as: an empty one, the header, one bullet a detail. */
  function LinesOf(r: Record): seq<string> { ["", Header(r)] + Bullets(r.details) }

  function AllLines(records: seq<Record>): seq<string> {
    if records == [] then [] else LinesOf(records[0]) + AllLines(records[1..])
  }

  /** The text of a log to which these records were appended. */
  function Log(records: seq<Record>): string { Terminated(AllLines(records)) }

  lemma {:induction false} TerminatedAppend(a: seq<string>, b: seq<string>)
    ensures Terminated(a + b) == Terminated(a) + Terminated(b)
  {
    if a == [] {
      assert a + b == b;
    } else {
      assert (a + b)[1..] == a[1..] + b;
      TerminatedAppend(a[1..], b);
    }
  }

  lemma {:induction false} AllLinesSnoc(records: seq<Record>, r: Record)
    ensures AllLines(records + [r]) == AllLines(records) + LinesOf(r)
  {
    if records == [] {
      assert records + [r] == [r];
      assert AllLines([r]) == LinesOf(r) + [];
    } else {
      assert (records + [r])[1..] == records[1..] + [r];
      AllLinesSnoc(records[1..], r);
    }
  }

  /** Appending a block to the text of a log appends its record. */
  lemma LogSnoc(records: seq<Record>, r: Record)
    ensures Log(records + [r]) == Log(records) + Terminated(LinesOf(r))
  {
    AllLinesSnoc(records, r);
    TerminatedAppend(AllLines(records), LinesOf(r));
  }

  lemma HeadOnly(header: string)
    ensures Terminated(["", header]) == "\n" + header + "\n"
  {
    assert ["", header][1..] == [header] && [header][1..] == [];
    assert Terminated([header]) == header + "\n" + "";
  }

  /** Build the block of one record. */
  method BlockOf(timestamp: string, action: string, details: seq<string>) returns (b: string)
    ensures b == Terminated(LinesOf(Record(timestamp, action, details)))
  {
    ghost var head := ["", Header(Record(timestamp, action, details))];
    b := "\n## " + timestamp + DASH + action + "\n";
    HeadOnly(head[1]);
    assert head + Bullets(details[..0]) == head;
    for i := 0 to |details|
      invariant b == Terminated(head + Bullets(details[..i]))
    {
      ghost var before := head + Bullets(details[..i]);
      assert head + Bullets(details[..i + 1]) == before + ["- " + details[i]];
      TerminatedAppend(before, ["- " + details[i]]);
      assert Terminated(["- " + details[i]]) == "- " + details[i] + "\n" + "";
      b := b + ("- " + details[i] + "\n");
    }
    assert details[..|details|] == details;
  }

  // ------------------------------------------------------------------ the parser

  /** The first dash at or after `i` with something on both sides: what `(.+?) - (.+)` matches. */
  function Cut(s: string, i: nat): Option<(string, string)>
    decreases |s| - i
  {
    if i + 3 >= |s| then None
    else if s[i..i + 3] == DASH then Some((s[..i], s[i + 3..]))
    else Cut(s, i + 1)
  }

  function ParseHeader(line: string): Option<(string, string)> {
    if StartsWith(line, "## ") then Cut(line[3..], 1) else None
  }

  datatype Parser = Parser(entries: seq<Record>, current: Option<Record>)

  function Finish(p: Parser): seq<Record> {
    p.entries + if p.current.Some? then [p.current.value] else []
  }

  function Feed(p: Parser, line: string): Parser {
    match ParseHeader(line)
    case Some((timestamp, action)) => Parser(Finish(p), Some(Record(timestamp, action, [])))
    case None =>
      if p.current.Some? && StartsWith(line, "- ") then
        p.(current := Some(p.current.value.(details := p.current.value.details + [line[2..]])))
      else p
  }

  function FeedAll(p: Parser, lines: seq<string>): Parser
    decreases |lines|
  {
    if lines == [] then p else FeedAll(Feed(p, lines[0]), lines[1..])
  }

  function Parse(text: string): seq<Record> { Finish(FeedAll(Parser([], None), Split(text, '\n'))) }

  function Reverse<T>(s: seq<T>): (r: seq<T>)
    ensures |r| == |s| && forall i :: 0 <= i < |s| ==> r[i] == s[|s| - 1 - i]
  {
    if s == [] then [] else [s[|s| - 1]] + Reverse(s[..|s| - 1])
  }

  function Newest<T>(s: seq<T>, limit: int): seq<T> {
    if 0 <= limit < |s| then Reverse(s)[..limit] else Reverse(s)
  }

  method ParseLog(text: string) returns (entries: seq<Record>)
    ensures entries == Parse(text)
  {
    entries := [];
    var current: Option<Record> := None;
    var lines := Split(text, '\n');
    for k := 0 to |lines|
      invariant FeedAll(Parser([], None), lines) == FeedAll(Parser(entries, current), lines[k..])
    {
      ghost var p := Parser(entries, current);
      assert lines[k..][1..] == lines[k + 1..] && entries + [] == entries;
      var m := ParseHeader(lines[k]);
      if m.Some? {
        if current.Some? {
          entries := entries + [current.value];
        }
        current := Some(Record(m.value.0, m.value.1, []));
      } else if current.Some? && StartsWith(lines[k], "- ") {
        current := Some(current.value.(details := current.value.details + [lines[k][2..]]));
      }
      assert Parser(entries, current) == Feed(p, lines[k]);
    }
    assert lines[|lines|..] == [] && entries + [] == entries;
    if current.Some? {
      entries := entries + [current.value];
    }
  }

  /** Swap entries from both ends towards the middle. */
  method Reversed(parsed: seq<Record>) returns (entries: seq<Record>)
    ensures entries == Reverse(parsed)
  {
    entries := parsed;
    var i, j := 0, |entries| - 1;
    while i < j
      invariant 0 <= i <= |entries| == |parsed| && j == |entries| - 1 - i && i <= j + 1
      invariant forall k :: 0 <= k < i || j < k < |entries| ==> entries[k] == parsed[|parsed| - 1 - k]
      invariant forall k :: i <= k <= j ==> entries[k] == parsed[k]
    {
      entries := entries[i := entries[j]][j := entries[i]];
      i, j := i + 1, j - 1;
    }
  }

  /** Parse the log, newest record first, at most `limit` of them if that is not negative. */
  method ReadLog(text: string, limit: int) returns (entries: seq<Record>)
    ensures entries == Newest(Parse(text), limit)
  {
    entries := ParseLog(text);
    entries := Reversed(entries);
    if limit >= 0 && |entries| > limit {
      entries := entries[..limit];
    }
  }

  // ------------------------------------------------------------------ round trip

  ghost predicate CleanHeader(r: Record) {
    && r.timestamp != "" && '\n' !in r.timestamp && '\U{2014}' !in r.timestamp
    && r.action != "" && '\n' !in r.action
  }

  ghost predicate OneLineDetails(r: Record) {
    forall i :: 0 <= i < |r.details| ==> '\n' !in r.details[i]
  }

  ghost predicate AllOneLine(records: seq<Record>) {
    forall i :: 0 <= i < |records| ==> OneLineDetails(records[i])
  }

  lemma {:induction false} CutFinds(timestamp: string, action: string, i: nat)
    requires '\U{2014}' !in timestamp && action != "" && i <= |timestamp|
    ensures Cut(timestamp + DASH + action, i) == Some((timestamp, action))
    decreases |timestamp| - i
  {
    var s := timestamp + DASH + action;
    if i == |timestamp| {
      assert s[i..i + 3] == DASH && s[..i] == timestamp && s[i + 3..] == action;
    } else {
      assert s[i..i + 3][1] == s[i + 1] != '\U{2014}';
      CutFinds(timestamp, action, i + 1);
    }
  }

  lemma HeaderReadsBack(r: Record)
    requires CleanHeader(r)
    ensures ParseHeader(Header(r)) == Some((r.timestamp, r.action))
  {
    var h := Header(r);
    assert h == "## " + (r.timestamp + DASH + r.action);
    assert h[..3] == "## " && h[3..] == r.timestamp + DASH + r.action;
    CutFinds(r.timestamp, r.action, 1);
  }

  lemma {:induction false} FeedAppend(p: Parser, a: seq<string>, b: seq<string>)
    ensures FeedAll(p, a + b) == FeedAll(FeedAll(p, a), b)
    decreases |a|
  {
    if a == [] {
      assert a + b == b;
    } else {
      assert (a + b)[1..] == a[1..] + b;
      FeedAppend(Feed(p, a[0]), a[1..], b);
    }
  }

  lemma NotAHeader(line: string)
    requires line != "" && line[0] != '#'
    ensures ParseHeader(line) == None
  {
    assert |line| >= 3 ==> line[..3][0] == line[0];
  }

  lemma {:induction false} FeedBullets(p: Parser, details: seq<string>)
    requires p.current.Some?
    ensures FeedAll(p, Bullets(details)) ==
              p.(current := Some(p.current.value.(details := p.current.value.details + details)))
    decreases |details|
  {
    var r := p.current.value;
    if details == [] {
      assert r.details + details == r.details;
    } else {
      var line := "- " + details[0];
      assert line[..2] == "- " && line[2..] == details[0];
      NotAHeader(line);
      assert Bullets(details)[1..] == Bullets(details[1..]);
      FeedBullets(Feed(p, line), details[1..]);
      assert r.details + [details[0]] + details[1..] == r.details + details;
    }
  }

  lemma FeedRecord(p: Parser, r: Record)
    requires CleanHeader(r)
    ensures FeedAll(p, LinesOf(r)) == Parser(Finish(p), Some(r))
  {
    HeaderReadsBack(r);
    var lines := LinesOf(r);
    assert Feed(p, "") == p;
    assert lines[1..] == [Header(r)] + Bullets(r.details) && lines[1..][1..] == Bullets(r.details);
    var opening := Parser(Finish(p), Some(Record(r.timestamp, r.action, [])));
    FeedBullets(opening, r.details);
    assert [] + r.details == r.details;
  }

  lemma {:induction false} FeedRecords(p: Parser, records: seq<Record>)
    requires forall i :: 0 <= i < |records| ==> CleanHeader(records[i])
    ensures Finish(FeedAll(p, AllLines(records))) == Finish(p) + records
    decreases |records|
  {
    if records == [] {
    } else {
      FeedAppend(p, LinesOf(records[0]), AllLines(records[1..]));
      FeedRecord(p, records[0]);
      FeedRecords(Parser(Finish(p), Some(records[0])), records[1..]);
      assert Finish(p) + [records[0]] + records[1..] == Finish(p) + records;
    }
  }

  lemma {:induction false} SplitTerminated(lines: seq<string>)
    requires forall i :: 0 <= i < |lines| ==> '\n' !in lines[i]
    ensures Split(Terminated(lines), '\n') == lines + [""]
  {
    if lines == [] {
    } else {
      SplitFirst(lines[0], '\n', Terminated(lines[1..]));
      SplitTerminated(lines[1..]);
    }
  }

  lemma {:induction false} AllLinesFree(records: seq<Record>)
    requires AllOneLine(records) && forall i :: 0 <= i < |records| ==> CleanHeader(records[i])
    ensures forall i :: 0 <= i < |AllLines(records)| ==> '\n' !in AllLines(records)[i]
  {
    if records == [] {
    } else {
      AllLinesFree(records[1..]);
      assert OneLineDetails(records[0]);
      assert forall i :: 0 <= i < |LinesOf(records[0])| ==> '\n' !in LinesOf(records[0])[i];
    }
  }

  lemma FeedKeepsLines(p: Parser, line: string)
    requires '\n' !in line && AllOneLine(Finish(p))
    ensures AllOneLine(Finish(Feed(p, line)))
  {
    var q := Feed(p, line);
    forall i | 0 <= i < |Finish(q)| ensures OneLineDetails(Finish(q)[i]) {
      if i < |Finish(p)| {
        assert OneLineDetails(Finish(p)[i]);
      }
    }
  }

  lemma {:induction false} ParsedDetailsAreLines(p: Parser, lines: seq<string>)
    requires forall i :: 0 <= i < |lines| ==> '\n' !in lines[i]
    requires AllOneLine(Finish(p))
    ensures AllOneLine(Finish(FeedAll(p, lines)))
    decreases |lines|
  {
    if lines == [] {
    } else {
      FeedKeepsLines(p, lines[0]);
      ParsedDetailsAreLines(Feed(p, lines[0]), lines[1..]);
    }
  }

  lemma LogReadsBack(records: seq<Record>)
    requires AllOneLine(records) && forall i :: 0 <= i < |records| ==> CleanHeader(records[i])
    ensures Parse(Log(records)) == records
  {
    var start, lines := Parser([], None), AllLines(records);
    AllLinesFree(records);
    SplitTerminated(lines);
    FeedAppend(start, lines, [""]);
    var end := FeedAll(start, lines);
    assert FeedAll(end, [""]) == Feed(end, "") == end;
    FeedRecords(start, records);
    assert Finish(start) + records == records;
  }

  /** Whatever the text, the parser makes one-line details only. */
  lemma ParsedIsOneLine(text: string)
    ensures AllOneLine(Parse(text))
  {
    SplitFree(text, '\n');
    assert AllOneLine(Finish(Parser([], None)));
    ParsedDetailsAreLines(Parser([], None), Split(text, '\n'));
  }

  /** Reading a log gives back the records that were appended exactly when no detail holds a
      newline; details are free text and nothing escapes them. */
  lemma LogRoundTripIff(records: seq<Record>)
    requires forall i :: 0 <= i < |records| ==> CleanHeader(records[i])
    ensures Parse(Log(records)) == records <==> AllOneLine(records)
  {
    if AllOneLine(records) {
      LogReadsBack(records);
    }
    ParsedIsOneLine(Log(records));
  }

  /** Entry k of a read is the k-th newest record. */
  lemma NewestFirst(records: seq<Record>, limit: int, k: nat)
    requires AllOneLine(records) && forall i :: 0 <= i < |records| ==> CleanHeader(records[i])
    ensures var shown := Newest(Parse(Log(records)), limit);
            && |shown| == (if 0 <= limit < |records| then limit else |records|)
            && (k < |shown| ==> shown[k] == records[|records| - 1 - k])
  {
    LogRoundTripIff(records);
  }
}
