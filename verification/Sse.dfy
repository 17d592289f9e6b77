/** Server-sent event framing between the backend and the web client (handler/chat_handler.go,
    chat/go-sse-to-ui.ts). The format is the one of section 9.2.6 of the WHATWG HTML Living
    Standard, restricted to `id:` and `data:` lines. Texts are the decoded characters. */
module Sse {
  import opened Text
  import opened Wrappers

  // ------------------------------------------------------------------ reading

  /** `indexOf("\n\n")`: the leftmost blank line, or -1. */
  function FindBlank(s: string): (i: int)
    ensures -1 <= i
    ensures i >= 0 ==> i + 2 <= |s| && s[i] == '\n' && s[i + 1] == '\n'
    ensures forall j :: 0 <= j < |s| - 1 && (i < 0 || j < i) ==> s[j] != '\n' || s[j + 1] != '\n'
  {
    if |s| < 2 then -1
    else if s[0] == '\n' && s[1] == '\n' then 0
    else
      var i := FindBlank(s[1..]);
      if i < 0 then -1 else i + 1
  }

  lemma BlankIsUnique(s: string, i: nat)
    requires i + 2 <= |s| && s[i] == '\n' && s[i + 1] == '\n'
    requires forall j :: 0 <= j < i ==> s[j] != '\n' || s[j + 1] != '\n'
    ensures FindBlank(s) == i
  {}

  predicate IsJsSpace(c: char) {
    var n := c as int;
    9 <= n <= 13 || n == 0x20 || n == 0xa0 || n == 0x1680 || 0x2000 <= n <= 0x200a
      || n == 0x2028 || n == 0x2029 || n == 0x202f || n == 0x205f || n == 0x3000 || n == 0xfeff
  }

  function Trim(s: string): string
    decreases |s|
  {
    if s == "" then ""
    else if IsJsSpace(s[0]) then Trim(s[1..])
    else if IsJsSpace(s[|s| - 1]) then Trim(s[..|s| - 1])
    else s
  }

  function DataLines(lines: seq<string>): seq<string> {
    if lines == [] then []
    else (if StartsWith(lines[0], "data:") then [Trim(lines[0][5..])] else []) + DataLines(lines[1..])
  }

  /** The payload of a frame, if it has a data line. */
  function Payload(frame: string): Option<string> {
    var lines := DataLines(Split(frame, '\n'));
    if lines == [] then None else Some(Join(lines, "\n"))
  }

  const DONE := "[DONE]"

  /** What a text yields when it is cut at blank lines from the left: the payloads before `[DONE]`,
      and the unfinished rest. */
  datatype Scan = Scan(payloads: seq<string>, rest: string, ended: bool)

  /** One frame, then what follows it: `[DONE]` makes the rest irrelevant. */
  function Lead(p: Option<string>, after: string, more: Scan): Scan {
    match p
    case None => more
    case Some(x) => if x == DONE then Scan([], after, true) else more.(payloads := [x] + more.payloads)
  }

  function ScanText(s: string): Scan
    decreases |s|
  {
    var sep := FindBlank(s);
    if sep < 0 then Scan([], s, false) else Lead(Payload(s[..sep]), s[sep + 2..], ScanText(s[sep + 2..]))
  }

  function Then(a: Scan, b: Scan): Scan { b.(payloads := a.payloads + b.payloads) }

  lemma LeadThen(p: Option<string>, after: string, a: Scan, b: Scan)
    requires p != Some(DONE)
    ensures Lead(p, after, Then(a, b)) == Then(Lead(p, after, a), b)
  {
    if p.Some? {
      assert [p.value] + (a.payloads + b.payloads) == [p.value] + a.payloads + b.payloads;
    }
  }

  /** The first frame of a text is the first frame of every longer one. */
  lemma ScanFirst(a: string, b: string, sep: nat)
    requires FindBlank(a) == sep
    ensures ScanText(a) == Lead(Payload(a[..sep]), a[sep + 2..], ScanText(a[sep + 2..]))
    ensures ScanText(a + b) == Lead(Payload(a[..sep]), a[sep + 2..] + b, ScanText(a[sep + 2..] + b))
  {
    BlankIsUnique(a + b, sep);
    assert (a + b)[..sep] == a[..sep] && (a + b)[sep + 2..] == a[sep + 2..] + b;
  }

  /** Reading a text in two goes, keeping the unfinished rest in between, reads it whole. */
  lemma {:induction false} ScanInTwoGoes(a: string, b: string)
    ensures !ScanText(a).ended ==> ScanText(a + b) == Then(ScanText(a), ScanText(ScanText(a).rest + b))
    ensures ScanText(a).ended ==> ScanText(a + b).ended && ScanText(a + b).payloads == ScanText(a).payloads
    decreases |a|
  {
    var sep := FindBlank(a);
    if sep < 0 {
      assert [] + ScanText(a + b).payloads == ScanText(a + b).payloads;
    } else {
      var p, after := Payload(a[..sep]), a[sep + 2..];
      ScanFirst(a, b, sep);
      ScanInTwoGoes(after, b);
      if p != Some(DONE) && !ScanText(after).ended {
        LeadThen(p, after + b, ScanText(after), ScanText(ScanText(after).rest + b));
      }
    }
  }

  /** The events among the payloads, and how many payloads were not JSON. */
  function Decoded<E>(decode: string -> Option<E>, payloads: seq<string>): seq<E> {
    if payloads == [] then []
    else
      var n := |payloads| - 1;
      Decoded(decode, payloads[..n]) + match decode(payloads[n]) case None => [] case Some(e) => [e]
  }

  function DroppedCount<E>(decode: string -> Option<E>, payloads: seq<string>): nat {
    if payloads == [] then 0
    else
      var n := |payloads| - 1;
      DroppedCount(decode, payloads[..n]) + if decode(payloads[n]).None? then 1 else 0
  }

  lemma {:induction false} DecodedAppend<E>(decode: string -> Option<E>, a: seq<string>, b: seq<string>)
    ensures Decoded(decode, a + b) == Decoded(decode, a) + Decoded(decode, b)
    ensures DroppedCount(decode, a + b) == DroppedCount(decode, a) + DroppedCount(decode, b)
  {
    if b == [] {
      assert a + b == a;
    } else {
      assert (a + b)[..|a + b| - 1] == a + b[..|b| - 1];
      DecodedAppend(decode, a, b[..|b| - 1]);
    }
  }

  lemma DecodedSnoc<E>(decode: string -> Option<E>, payloads: seq<string>, p: string)
    ensures Decoded(decode, payloads + [p]) ==
              match decode(p) case None => Decoded(decode, payloads) case Some(e) => Decoded(decode, payloads) + [e]
    ensures DroppedCount(decode, payloads + [p]) == DroppedCount(decode, payloads) + if decode(p).None? then 1 else 0
  {
    assert (payloads + [p])[..|payloads|] == payloads;
    assert Decoded(decode, payloads) + [] == Decoded(decode, payloads);
  }

  lemma ThenStep(a: seq<string>, p: string, more: Scan)
    ensures Then(Scan(a, "", false), more.(payloads := [p] + more.payloads)) == Then(Scan(a + [p], "", false), more)
  {
    assert a + ([p] + more.payloads) == (a + [p]) + more.payloads;
  }

  lemma ThenLast(a: seq<string>, after: string, ended: bool)
    ensures Then(Scan(a, "", false), Scan([], after, ended)) == Scan(a, after, ended)
  {
    assert a + [] == a;
  }

  /** A text reads as some payloads, then as what is left in the buffer does. */
  ghost predicate Reads(text: string, payloads: seq<string>, buffer: string) {
    ScanText(text) == Then(Scan(payloads, "", false), ScanText(buffer))
  }

  /** Taking the first frame off the buffer. */
  lemma TakeFrame(text: string, payloads: seq<string>, buffer: string)
    requires Reads(text, payloads, buffer) && FindBlank(buffer) >= 0
    ensures var sep := FindBlank(buffer); var rest := buffer[sep + 2..];
            match Payload(buffer[..sep])
            case None => Reads(text, payloads, rest)
            case Some(p) =>
              if p == DONE then ScanText(text) == Scan(payloads, rest, true)
              else Reads(text, payloads + [p], rest)
  {
    var sep := FindBlank(buffer);
    var rest := buffer[sep + 2..];
    match Payload(buffer[..sep])
    case None =>
    case Some(p) =>
      if p == DONE {
        ThenLast(payloads, rest, true);
      } else {
        ThenStep(payloads, p, ScanText(rest));
      }
  }

  lemma ReadsStart(text: string)
    ensures Reads(text, [], text)
  {
    assert [] + ScanText(text).payloads == ScanText(text).payloads;
  }

  lemma ReadsEnd(text: string, payloads: seq<string>, buffer: string)
    requires Reads(text, payloads, buffer) && FindBlank(buffer) < 0
    ensures ScanText(text) == Scan(payloads, buffer, false)
  {
    ThenLast(payloads, buffer, false);
  }

  /** The data lines of a frame, joined, if it has any. */
  method ReadFrame(frame: string) returns (payload: Option<string>)
    ensures payload == Payload(frame)
  {
    var dataLines := DataLines(Split(frame, '\n'));
    payload := if |dataLines| == 0 then None else Some(Join(dataLines, "\n"));
  }

  /** The inner loop: take every whole frame off the buffer. */
  method TakeFrames<E>(text: string, decode: string -> Option<E>)
    returns (events: seq<E>, dropped: nat, buffer: string, ended: bool)
    ensures var scan := ScanText(text);
            && events == Decoded(decode, scan.payloads) && dropped == DroppedCount(decode, scan.payloads)
            && buffer == scan.rest && ended == scan.ended
  {
    buffer, events, dropped, ended := text, [], 0, false;
    ghost var payloads: seq<string> := [];
    ReadsStart(text);
    while FindBlank(buffer) >= 0
      invariant Reads(text, payloads, buffer)
      invariant events == Decoded(decode, payloads) && dropped == DroppedCount(decode, payloads)
      decreases |buffer|
    {
      var sep := FindBlank(buffer);
      TakeFrame(text, payloads, buffer);
      var payload := ReadFrame(buffer[..sep]);
      buffer := buffer[sep + 2..];
      if payload.None? {
        continue;
      }
      if payload.value == DONE {
        return events, dropped, buffer, true;
      }
      DecodedSnoc(decode, payloads, payload.value);
      payloads := payloads + [payload.value];
      match decode(payload.value)
      case None => dropped := dropped + 1;
      case Some(e) => events := events + [e];
    }
    ReadsEnd(text, payloads, buffer);
  }

  lemma FlattenCut(chunks: seq<string>, k: nat)
    requires k <= |chunks|
    ensures Flatten(chunks) == Flatten(chunks[..k]) + Flatten(chunks[k..])
  {
    assert chunks == chunks[..k] + chunks[k..];
    FlattenAppend(chunks[..k], chunks[k..]);
  }

  lemma EndedStaysEnded(chunks: seq<string>, k: nat)
    requires k <= |chunks| && ScanText(Flatten(chunks[..k])).ended
    ensures ScanText(Flatten(chunks)).ended
    ensures ScanText(Flatten(chunks)).payloads == ScanText(Flatten(chunks[..k])).payloads
  {
    FlattenCut(chunks, k);
    ScanInTwoGoes(Flatten(chunks[..k]), Flatten(chunks[k..]));
  }

  /** However the text is split into reads, the parser yields what a scan of the whole text does. */
  method ParseGoSSE<E>(chunks: seq<string>, decode: string -> Option<E>)
    returns (events: seq<E>, dropped: nat, ended: bool)
    ensures var whole := ScanText(Flatten(chunks));
            && events == Decoded(decode, whole.payloads)
            && dropped == DroppedCount(decode, whole.payloads)
            && ended == whole.ended
  {
    var buffer := "";
    events, dropped, ended := [], 0, false;
    for k := 0 to |chunks|
      invariant var scan := ScanText(Flatten(chunks[..k]));
                && scan.rest == buffer && !scan.ended
                && events == Decoded(decode, scan.payloads) && dropped == DroppedCount(decode, scan.payloads)
    {
      ghost var read := Flatten(chunks[..k]);
      assert chunks[..k + 1] == chunks[..k] + [chunks[k]];
      FlattenSnoc(chunks[..k], chunks[k]);
      ScanInTwoGoes(read, chunks[k]);
      DecodedAppend(decode, ScanText(read).payloads, ScanText(buffer + chunks[k]).payloads);
      var more, lost;
      more, lost, buffer, ended := TakeFrames(buffer + chunks[k], decode);
      events, dropped := events + more, dropped + lost;
      if ended {
        EndedStaysEnded(chunks, k + 1);
        return;
      }
    }
    assert chunks[..|chunks|] == chunks;
  }

  // ------------------------------------------------------------------ writing

  datatype Frame = Frame(id: nat, payload: string)

  function Write(f: Frame): string { "id: " + Dec(f.id) + "\n" + "data: " + f.payload + "\n\n" }

  function WriteAll(frames: seq<Frame>): string {
    if frames == [] then "" else Write(frames[0]) + WriteAll(frames[1..])
  }

  const DONE_FRAME := "data: " + DONE + "\n\n"

  /** A marshalled JSON object: one line, not blank at either end, and not the end marker. */
  predicate Clean(payload: string) {
    && payload != "" && payload != DONE && '\n' !in payload
    && !IsJsSpace(payload[0]) && !IsJsSpace(payload[|payload| - 1])
  }

  function PayloadsOf(frames: seq<Frame>): seq<string> {
    seq(|frames|, i requires 0 <= i < |frames| => frames[i].payload)
  }

  lemma FirstBlankOf(head: string, body: string, rest: string)
    requires body != "" && '\n' !in body
    requires head == "" || (head[|head| - 1] == '\n' && '\n' !in head[..|head| - 1])
    ensures FindBlank(head + body + "\n\n" + rest) == |head + body|
  {
    var s := head + body + "\n\n" + rest;
    var i := |head + body|;
    forall j | 0 <= j < i ensures s[j] != '\n' || s[j + 1] != '\n' {
      if j < |head| {
        assert j < |head| - 1 ==> s[j] == head[..|head| - 1][j];
        assert j == |head| - 1 ==> s[j + 1] == body[0];
      } else {
        assert s[j] == body[j - |head|];
      }
    }
    BlankIsUnique(s, i);
  }

  lemma TrimOfIsDataText(payload: string)
    requires payload != "" && !IsJsSpace(payload[0]) && !IsJsSpace(payload[|payload| - 1])
    ensures Trim(" " + payload) == payload
  {
    assert (" " + payload)[1..] == payload;
  }

  lemma PayloadOfData(payload: string)
    requires payload != "" && '\n' !in payload && !IsJsSpace(payload[0]) && !IsJsSpace(payload[|payload| - 1])
    ensures Payload("data: " + payload) == Some(payload)
    ensures forall id: nat :: Payload("id: " + Dec(id) + "\n" + "data: " + payload) == Some(payload)
  {
    var line := "data: " + payload;
    SplitNone(line, '\n');
    assert line[..5] == "data:" && line[5..] == " " + payload;
    TrimOfIsDataText(payload);
    assert DataLines([line]) == [payload] + DataLines([]);
    forall id: nat ensures Payload("id: " + Dec(id) + "\n" + line) == Some(payload) {
      var first := "id: " + Dec(id);
      SplitFirst(first, '\n', line);
      assert first + "\n" + line == first + ['\n'] + line;
      assert [first, line][1..] == [line];
      assert first[..5][0] == 'i';
      assert DataLines([first, line]) == DataLines([line]);
    }
    assert forall id: nat :: "id: " + Dec(id) + "\n" + "data: " + payload == "id: " + Dec(id) + "\n" + line;
  }

  predicate AllSpace(s: string) { forall i :: 0 <= i < |s| ==> IsJsSpace(s[i]) }

  predicate IsTrimmed(s: string) { s != "" ==> !IsJsSpace(s[0]) && !IsJsSpace(s[|s| - 1]) }

  /** Trimming takes the space off both ends and nothing else. */
  lemma {:induction false} TrimTakesSpace(left: string, text: string, right: string)
    requires AllSpace(left) && AllSpace(right) && IsTrimmed(text)
    ensures Trim(left + text + right) == text
    decreases |left| + |right|
  {
    var s := left + text + right;
    if left != "" {
      TrimTakesSpace(left[1..], text, right);
      assert s[1..] == left[1..] + text + right;
    } else if text == "" {
      if right != "" {
        TrimTakesSpace("", "", right[1..]);
        assert s[1..] == "" + "" + right[1..];
      }
    } else if right != "" {
      TrimTakesSpace("", text, right[..|right| - 1]);
      assert s[..|s| - 1] == "" + text + right[..|right| - 1];
    } else {
      assert s == text;
    }
  }

  predicate IsDataText(line: string) {
    line != "" && '\n' !in line && !IsJsSpace(line[0]) && !IsJsSpace(line[|line| - 1])
  }

  function AsData(lines: seq<string>): seq<string> {
    seq(|lines|, i requires 0 <= i < |lines| => "data: " + lines[i])
  }

  lemma {:induction false} DataLinesOf(lines: seq<string>)
    requires forall i :: 0 <= i < |lines| ==> IsDataText(lines[i])
    ensures DataLines(AsData(lines)) == lines
  {
    if lines == [] {
    } else {
      var line := "data: " + lines[0];
      assert line[..5] == "data:" && line[5..] == " " + lines[0];
      TrimOfIsDataText(lines[0]);
      assert AsData(lines)[1..] == AsData(lines[1..]);
      DataLinesOf(lines[1..]);
    }
  }

  lemma AsDataIsLines(lines: seq<string>)
    requires forall i :: 0 <= i < |lines| ==> IsDataText(lines[i])
    ensures forall i :: 0 <= i < |lines| ==> '\n' !in AsData(lines)[i]
  {}

  /** The payload of a frame is all its data lines, one below the other. */
  lemma PayloadOfLines(lines: seq<string>)
    requires lines != [] && forall i :: 0 <= i < |lines| ==> IsDataText(lines[i])
    ensures Payload(Join(AsData(lines), "\n")) == Some(Join(lines, "\n"))
  {
    AsDataIsLines(lines);
    SplitJoin(AsData(lines), '\n');
    DataLinesOf(lines);
  }

  /** Every payload is decoded or counted as dropped. */
  lemma {:induction false} DecodedOrDropped<E>(decode: string -> Option<E>, payloads: seq<string>)
    ensures |Decoded(decode, payloads)| + DroppedCount(decode, payloads) == |payloads|
  {
    if payloads == [] {
    } else {
      DecodedOrDropped(decode, payloads[..|payloads| - 1]);
    }
  }

  lemma ScanFrame(f: Frame, rest: string)
    requires Clean(f.payload)
    ensures ScanText(Write(f) + rest) == Then(Scan([f.payload], "", false), ScanText(rest))
  {
    var head, body := "id: " + Dec(f.id) + "\n", "data: " + f.payload;
    assert head[..|head| - 1] == "id: " + Dec(f.id);
    FirstBlankOf(head, body, rest);
    var s := Write(f) + rest;
    assert s == head + body + "\n\n" + rest;
    assert s[..|head + body|] == head + body && s[|head + body| + 2..] == rest;
    PayloadOfData(f.payload);
    assert head + body == "id: " + Dec(f.id) + "\n" + "data: " + f.payload;
  }

  lemma FourLines(first: string, second: string)
    ensures Join([first, second, "", ""], "\n") == first + "\n" + second + "\n\n"
  {
    var lines := [first, second, "", ""];
    assert lines[1..] == [second, "", ""] && lines[1..][1..] == ["", ""] && lines[1..][1..][1..] == [""];
    assert Join(["", ""], "\n") == "" + "\n" + "";
    assert Join([second, "", ""], "\n") == second + "\n" + "\n";
    assert Join(lines, "\n") == first + "\n" + (second + "\n" + "\n");
  }

  /** The id line of a written frame holds its id. */
  lemma FrameIdReadsBack(f: Frame)
    requires '\n' !in f.payload
    ensures var lines := Split(Write(f), '\n');
            && |lines| == 4 && StartsWith(lines[0], "id: ") && DecValue(lines[0][4..]) == f.id
            && lines[1] == "data: " + f.payload && lines[2] == "" && lines[3] == ""
  {
    var first, second := "id: " + Dec(f.id), "data: " + f.payload;
    DecIsOneLine(f.id);
    FourLines(first, second);
    assert Write(f) == first + "\n" + second + "\n\n";
    SplitJoin([first, second, "", ""], '\n');
    assert first[..4] == "id: " && first[4..] == Dec(f.id);
    DecRoundTrip(f.id);
  }

  lemma ScanDone(rest: string)
    ensures ScanText(DONE_FRAME + rest) == Scan([], rest, true)
  {
    var body := "data: " + DONE;
    FirstBlankOf("", body, rest);
    var s := DONE_FRAME + rest;
    assert s == "" + body + "\n\n" + rest;
    assert s[..|body|] == body && s[|body| + 2..] == rest;
    PayloadOfData(DONE);
  }

  lemma ThenCons(p: string, ps: seq<string>, more: Scan)
    ensures Then(Scan([p], "", false), Then(Scan(ps, "", false), more)) == Then(Scan([p] + ps, "", false), more)
  {
    assert [p] + (ps + more.payloads) == [p] + ps + more.payloads;
  }

  lemma WriteAllCons(frames: seq<Frame>, rest: string)
    requires frames != []
    ensures WriteAll(frames) + rest == Write(frames[0]) + (WriteAll(frames[1..]) + rest)
  {}

  lemma PayloadsCons(frames: seq<Frame>)
    requires frames != []
    ensures PayloadsOf(frames) == [frames[0].payload] + PayloadsOf(frames[1..])
  {}

  lemma {:induction false} ScanWritten(frames: seq<Frame>, rest: string)
    requires forall i :: 0 <= i < |frames| ==> Clean(frames[i].payload)
    ensures ScanText(WriteAll(frames) + rest) == Then(Scan(PayloadsOf(frames), "", false), ScanText(rest))
  {
    if frames == [] {
      assert WriteAll(frames) + rest == rest;
    } else {
      var more := WriteAll(frames[1..]) + rest;
      WriteAllCons(frames, rest);
      ScanFrame(frames[0], more);
      ScanWritten(frames[1..], rest);
      PayloadsCons(frames);
      ThenCons(frames[0].payload, PayloadsOf(frames[1..]), ScanText(rest));
    }
  }

  /** Printing and parsing undo each other under any chunking: the reads of a finished stream
      yield exactly the written payloads and the end. */
  lemma RoundTripUnderChunking(frames: seq<Frame>, chunks: seq<string>)
    requires forall i :: 0 <= i < |frames| ==> Clean(frames[i].payload)
    requires Flatten(chunks) == WriteAll(frames) + DONE_FRAME
    ensures ScanText(Flatten(chunks)).payloads == PayloadsOf(frames) && ScanText(Flatten(chunks)).ended
  {
    ScanWritten(frames, DONE_FRAME);
    ScanDone("");
    assert DONE_FRAME + "" == DONE_FRAME;
    assert PayloadsOf(frames) + [] == PayloadsOf(frames);
  }

  /** A stream cut anywhere, even inside a frame, yields a prefix of the written payloads. */
  lemma CutStreamYieldsPrefix(frames: seq<Frame>, chunks: seq<string>, lost: string)
    requires forall i :: 0 <= i < |frames| ==> Clean(frames[i].payload)
    requires Flatten(chunks) + lost == WriteAll(frames) + DONE_FRAME
    ensures ScanText(Flatten(chunks)).payloads <= PayloadsOf(frames)
  {
    var read := Flatten(chunks);
    ScanInTwoGoes(read, lost);
    RoundTripUnderChunking(frames, [read + lost]);
    assert Flatten([read + lost]) == read + lost;
  }

  // ------------------------------------------------------------------ streaming a run

  /** The frames of the delivered events: an event that does not marshal is left out, and the ids
      count the frames written. */
  function FramesFrom<E>(events: seq<E>, marshal: E -> Option<string>, idx: nat): seq<Frame> {
    if events == [] then []
    else
      match marshal(events[0])
      case None => FramesFrom(events[1..], marshal, idx)
      case Some(b) => [Frame(idx, b)] + FramesFrom(events[1..], marshal, idx + 1)
  }

  lemma WriteNext<E>(events: seq<E>, marshal: E -> Option<string>, k: nat, idx: nat)
    requires k < |events|
    ensures WriteAll(FramesFrom(events[k..], marshal, idx)) ==
              match marshal(events[k])
              case None => WriteAll(FramesFrom(events[k + 1..], marshal, idx))
              case Some(b) => Write(Frame(idx, b)) + WriteAll(FramesFrom(events[k + 1..], marshal, idx + 1))
  {
    assert events[k..][1..] == events[k + 1..];
  }

  method StreamRun<E>(events: seq<E>, marshal: E -> Option<string>, from: nat, gone: bool) returns (written: string)
    ensures written == WriteAll(FramesFrom(events, marshal, from)) + if gone then "" else DONE_FRAME
  {
    written := "";
    var idx := from;
    assert events[0..] == events;
    for k := 0 to |events|
      invariant written + WriteAll(FramesFrom(events[k..], marshal, idx)) == WriteAll(FramesFrom(events, marshal, from))
    {
      WriteNext(events, marshal, k, idx);
      match marshal(events[k])
      case None =>
      case Some(b) =>
        written := written + ("id: " + Dec(idx) + "\n" + "data: " + b + "\n\n");
        idx := idx + 1;
    }
    assert events[|events|..] == [] && written + "" == written;
    if !gone {
      written := written + DONE_FRAME;
    }
  }

  /** A new run: the conversation's frame, then the run from its first event. */
  method StartStream<E>(conversation: string, events: seq<E>, marshal: E -> Option<string>, gone: bool)
    returns (written: string)
    ensures written == WriteAll([Frame(0, conversation)] + FramesFrom(events, marshal, 0)) +
                       if gone then "" else DONE_FRAME
  {
    var head := "id: " + Dec(0) + "\n" + "data: " + conversation + "\n\n";
    var body := StreamRun(events, marshal, 0, gone);
    assert ([Frame(0, conversation)] + FramesFrom(events, marshal, 0))[1..] == FramesFrom(events, marshal, 0);
    written := head + body;
  }

  function Marshalled<E>(events: seq<E>, marshal: E -> Option<string>): nat {
    if events == [] then 0 else (if marshal(events[0]).Some? then 1 else 0) + Marshalled(events[1..], marshal)
  }

  lemma {:induction false} MarshalledAtMost<E>(events: seq<E>, marshal: E -> Option<string>)
    ensures Marshalled(events, marshal) <= |events|
    ensures Marshalled(events, marshal) == |events| <==> forall i :: 0 <= i < |events| ==> marshal(events[i]).Some?
  {
    if events == [] {
    } else {
      MarshalledAtMost(events[1..], marshal);
      assert forall i :: 0 <= i < |events[1..]| ==> events[1..][i] == events[i + 1];
    }
  }

  /** The frame of an event carries its buffer index as id exactly when every event delivered
      before it marshalled. */
  lemma {:induction false} FrameIdIsIndexIff<E>(events: seq<E>, marshal: E -> Option<string>, from: nat, j: nat)
    requires j < |events| && marshal(events[j]).Some?
    ensures var at := Marshalled(events[..j], marshal); var frames := FramesFrom(events, marshal, from);
            && at < |frames| && frames[at] == Frame(from + at, marshal(events[j]).value)
            && (frames[at].id == from + j <==> forall i :: 0 <= i < j ==> marshal(events[i]).Some?)
  {
    if j == 0 {
    } else {
      var idx := if marshal(events[0]).Some? then from + 1 else from;
      FrameIdIsIndexIff(events[1..], marshal, idx, j - 1);
      assert events[..j][1..] == events[1..][..j - 1];
      MarshalledAtMost(events[1..][..j - 1], marshal);
      assert forall i :: 0 <= i < j - 1 ==> events[1..][i] == events[i + 1];
    }
  }

  ghost predicate Codec<E(!new)>(marshal: E -> Option<string>, decode: string -> Option<E>) {
    forall e :: marshal(e).Some? ==> Clean(marshal(e).value) && decode(marshal(e).value) == Some(e)
  }

  lemma DecodedCons<E>(decode: string -> Option<E>, p: string, payloads: seq<string>, e: E)
    requires decode(p) == Some(e)
    ensures Decoded(decode, [p] + payloads) == [e] + Decoded(decode, payloads)
    ensures DroppedCount(decode, [p] + payloads) == DroppedCount(decode, payloads)
  {
    DecodedAppend(decode, [p], payloads);
    DecodedSnoc(decode, [], p);
    assert [] + [p] == [p] && [] + [e] == [e];
  }

  lemma {:induction false} DecodeFrames<E(!new)>(events: seq<E>, marshal: E -> Option<string>,
                                                 decode: string -> Option<E>, idx: nat)
    requires Codec(marshal, decode) && forall i :: 0 <= i < |events| ==> marshal(events[i]).Some?
    ensures var frames := FramesFrom(events, marshal, idx);
            && (forall i :: 0 <= i < |frames| ==> Clean(frames[i].payload))
            && Decoded(decode, PayloadsOf(frames)) == events && DroppedCount(decode, PayloadsOf(frames)) == 0
  {
    if events == [] {
    } else {
      var payload, rest := marshal(events[0]).value, FramesFrom(events[1..], marshal, idx + 1);
      DecodeFrames(events[1..], marshal, decode, idx + 1);
      PayloadsCons([Frame(idx, payload)] + rest);
      assert ([Frame(idx, payload)] + rest)[1..] == rest;
      DecodedCons(decode, payload, PayloadsOf(rest), events[0]);
      assert [events[0]] + events[1..] == events;
    }
  }

  /** End to end: whatever reads the network makes of a finished stream, the client has the events. */
  lemma ClientGetsTheEvents<E(!new)>(events: seq<E>, marshal: E -> Option<string>, decode: string -> Option<E>,
                                     from: nat, chunks: seq<string>)
    requires Codec(marshal, decode) && forall i :: 0 <= i < |events| ==> marshal(events[i]).Some?
    requires Flatten(chunks) == WriteAll(FramesFrom(events, marshal, from)) + DONE_FRAME
    ensures var whole := ScanText(Flatten(chunks));
            whole.ended && Decoded(decode, whole.payloads) == events && DroppedCount(decode, whole.payloads) == 0
  {
    DecodeFrames(events, marshal, decode, from);
    RoundTripUnderChunking(FramesFrom(events, marshal, from), chunks);
  }

  /** The same for a new run, whose first frame names the conversation. */
  lemma NewClientGetsTheEvents<E(!new)>(hello: E, conversation: string, events: seq<E>, marshal: E -> Option<string>,
                                        decode: string -> Option<E>, chunks: seq<string>)
    requires Codec(marshal, decode) && forall i :: 0 <= i < |events| ==> marshal(events[i]).Some?
    requires Clean(conversation) && decode(conversation) == Some(hello)
    requires Flatten(chunks) == WriteAll([Frame(0, conversation)] + FramesFrom(events, marshal, 0)) + DONE_FRAME
    ensures var whole := ScanText(Flatten(chunks));
            whole.ended && Decoded(decode, whole.payloads) == [hello] + events &&
              DroppedCount(decode, whole.payloads) == 0
  {
    var first, frames := Frame(0, conversation), FramesFrom(events, marshal, 0);
    var rest := WriteAll(frames) + DONE_FRAME;
    assert ([first] + frames)[1..] == frames;
    WriteAllCons([first] + frames, DONE_FRAME);
    ScanFrame(first, rest);
    assert Flatten([rest]) == rest;
    ClientGetsTheEvents(events, marshal, decode, 0, [rest]);
    DecodedCons(decode, conversation, ScanText(rest).payloads, hello);
  }
}
