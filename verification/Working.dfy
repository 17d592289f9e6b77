/** Append-only daily observation files and the marks that say how far each has been
    consolidated (store/working.go), for one scope directory. */
module Working {
  import opened Text
  import opened Sorting

  datatype Store = Store(files: map<string, string>, marks: map<string, nat>)

  /** Which files a mark request names: every daily file, or the listed ones. */
  datatype Selection = All | Only(names: seq<string>)

  datatype Action =
    | Append(day: string, time: string, conversation: string, observation: string)
    | Read
    | Mark(which: Selection)

  function DailyFile(day: string): string { day + ".md" }

  function Block(time: string, conversation: string, observation: string): string {
    "\n## " + time + (if conversation == "" then "" else " \U{2014} " + conversation)
    + "\n" + TrimRight(observation) + "\n"
  }

  function TextOf(s: Store, name: string): string { if name in s.files then s.files[name] else "" }

  function MarkOf(s: Store, name: string): nat { if name in s.marks then s.marks[name] else 0 }

  predicate Covers(a: Action, name: string) { a.Mark? && (a.which.All? || name in a.which.names) }

  predicate Writes(a: Action, name: string) { a.Append? && DailyFile(a.day) == name }

  function Step(s: Store, a: Action): Store {
    match a
    case Append(day, time, conversation, observation) =>
      var name := DailyFile(day);
      s.(files := s.files[name := TextOf(s, name) + Block(time, conversation, observation)])
    case Read => s
    case Mark(_) => s.(marks := s.marks + map n | n in s.files && Covers(a, n) :: |s.files[n]|)
  }

  function Exec(acts: seq<Action>): Store {
    if acts == [] then Store(map[], map[]) else Step(Exec(acts[..|acts| - 1]), acts[|acts| - 1])
  }

  /** What of a file is past its mark. */
  function Tail(s: Store, name: string): string {
    if MarkOf(s, name) <= |TextOf(s, name)| then TextOf(s, name)[MarkOf(s, name)..] else ""
  }

  // ------------------------------------------------------------------ what a block says

  function Heading(time: string, conversation: string): string {
    "## " + time + if conversation == "" then "" else " \U{2014} " + conversation
  }

  lemma BlockIsLines(heading: string, text: string)
    ensures "\n" + heading + "\n" + text + "\n" == Join(["", heading] + Split(text, '\n') + [""], "\n")
  {
    var lines := Split(text, '\n');
    JoinSplit(text, '\n');
    JoinAppend(["", heading], lines, "\n");
    JoinAppend(["", heading] + lines, [""], "\n");
    assert ["", heading][1..] == [heading];
  }

  lemma LinesAreLines(heading: string, text: string)
    requires '\n' !in heading
    ensures var lines := ["", heading] + Split(text, '\n') + [""]; forall i :: 0 <= i < |lines| ==> '\n' !in lines[i]
  {
    SplitFree(text, '\n');
  }

  lemma LinesReadBack(heading: string, text: string)
    requires '\n' !in heading
    ensures Split("\n" + heading + "\n" + text + "\n", '\n') == ["", heading] + Split(text, '\n') + [""]
  {
    BlockIsLines(heading, text);
    LinesAreLines(heading, text);
    SplitJoin(["", heading] + Split(text, '\n') + [""], '\n');
  }

  lemma HeadingFirst(time: string, tag: string)
    ensures "\n## " + time + tag == "\n" + ("## " + time + tag)
  {}

  /** The lines of a block: an empty one, a heading with the time and the conversation, the lines of the
      observation without space at its end, and the end of the last. */
  lemma BlockReadsBack(time: string, conversation: string, observation: string)
    requires '\n' !in time && '\n' !in conversation
    ensures Split(Block(time, conversation, observation), '\n') ==
              ["", Heading(time, conversation)] + Split(TrimRight(observation), '\n') + [""]
  {
    var heading, text := Heading(time, conversation), TrimRight(observation);
    LinesReadBack(heading, text);
    HeadingFirst(time, if conversation == "" then "" else " \U{2014} " + conversation);
    assert Block(time, conversation, observation) == "\n" + heading + "\n" + text + "\n";
  }

  lemma DailyFilesDiffer(a: string, b: string)
    requires DailyFile(a) == DailyFile(b)
    ensures a == b
  {
    assert a == DailyFile(a)[..|a|] && b == DailyFile(b)[..|b|];
    assert |DailyFile(a)| == |a| + 3 && |DailyFile(b)| == |b| + 3;
  }

  // ------------------------------------------------------------------ the store

  /** What one file contributes to a read. */
  function Chunk(s: Store, name: string): seq<string> {
    if Trim(Tail(s, name)) == "" then [] else ["# " + Stem(name) + "\n" + Tail(s, name)]
  }

  function Chunks(s: Store, names: seq<string>): seq<string> {
    if names == [] then [] else Chunks(s, names[..|names| - 1]) + Chunk(s, names[|names| - 1])
  }

  /** What a read returns: the chunks of the files in order of name. */
  ghost function Pending(s: Store, onlyUnprocessed: bool): string {
    Join(Chunks(if onlyUnprocessed then s else s.(marks := map[]), Names(s.files.Keys)), "\n")
  }

  function Present(s: Store, names: seq<string>): seq<string> {
    if names == [] then []
    else Present(s, names[..|names| - 1]) + if names[|names| - 1] in s.files then [names[|names| - 1]] else []
  }

  lemma ChunkOf(s: Store, name: string)
    ensures var start, content := MarkOf(s, name), TextOf(s, name);
            Chunk(s, name) == if start < |content| && Trim(content[start..]) != ""
                              then ["# " + Stem(name) + "\n" + content[start..]] else []
  {
    assert Trim("") == "";
  }

  /** A day's chunk is headed by the day and holds what is past the mark. */
  lemma ChunkOfDay(s: Store, day: string)
    requires Chunk(s, DailyFile(day)) != []
    ensures Chunk(s, DailyFile(day)) == ["# " + day + "\n" + Tail(s, DailyFile(day))]
  {
    ExtOfMd(day);
  }

  /** As many as there are names of files. */
  lemma {:induction false} PresentCounts(s: Store, names: seq<string>)
    ensures |Present(s, names)| == |set i | 0 <= i < |names| && names[i] in s.files|
  {
    var all := set i | 0 <= i < |names| && names[i] in s.files;
    if names == [] {
      assert all == {};
    } else {
      var n := |names| - 1;
      PresentCounts(s, names[..n]);
      var before := set i | 0 <= i < |names[..n]| && names[..n][i] in s.files;
      assert before == set i | 0 <= i < n && names[i] in s.files;
      assert all == before + if names[n] in s.files then {n} else {};
    }
  }

  lemma ChunksNext(s: Store, names: seq<string>, i: nat)
    requires i < |names|
    ensures Chunks(s, names[..i + 1]) == Chunks(s, names[..i]) + Chunk(s, names[i])
  {
    assert names[..i + 1][..i] == names[..i];
  }

  lemma {:induction false} ChunksHave(s: Store, names: seq<string>, i: nat)
    requires i < |names| && Chunk(s, names[i]) != []
    ensures Chunk(s, names[i])[0] in Chunks(s, names)
  {
    if i < |names| - 1 {
      ChunksHave(s, names[..|names| - 1], i);
    }
  }

  /** A read holds the chunk of every file that has one: what is past its mark, or all of it. */
  lemma PendingHoldsEveryChunk(s: Store, onlyUnprocessed: bool, name: string)
    requires name in s.files
    ensures var seen := if onlyUnprocessed then s else s.(marks := map[]);
            && Tail(seen, name) == (if onlyUnprocessed then Tail(s, name) else TextOf(s, name))
            && (Chunk(seen, name) != [] ==> Contains(Pending(s, onlyUnprocessed), Chunk(seen, name)[0]))
  {
    var seen, names := if onlyUnprocessed then s else s.(marks := map[]), Names(s.files.Keys);
    assert name in names;
    var i :| 0 <= i < |names| && names[i] == name;
    assert !onlyUnprocessed ==> TextOf(s, name)[0..] == TextOf(s, name);
    if Chunk(seen, name) != [] {
      ChunksHave(seen, names, i);
      var k :| 0 <= k < |Chunks(seen, names)| && Chunks(seen, names)[k] == Chunk(seen, name)[0];
      JoinContains(Chunks(seen, names), "\n", k);
    }
  }

  /** The chunk of one file, if it has one to show. */
  method ChunkFrom(s: Store, name: string) returns (parts: seq<string>)
    requires name in s.files
    ensures parts == Chunk(s, name)
  {
    ChunkOf(s, name);
    parts := [];
    var content := s.files[name];
    var start := if name in s.marks then s.marks[name] else 0;
    if start < |content| {
      var chunk := content[start..];
      if Trim(chunk) != "" {
        parts := ["# " + Stem(name) + "\n" + chunk];
      }
    }
  }

  method Concatenate(s: Store, names: seq<string>) returns (text: string)
    requires forall i :: 0 <= i < |names| ==> names[i] in s.files
    ensures text == Join(Chunks(s, names), "\n")
  {
    var parts := [];
    for i := 0 to |names|
      invariant parts == Chunks(s, names[..i])
    {
      ChunksNext(s, names, i);
      var chunk := ChunkFrom(s, names[i]);
      parts := parts + chunk;
    }
    assert names[..|names|] == names;
    text := Join(parts, "\n");
  }

  /** The marks after covering `names`. */
  function Covered(s: Store, names: seq<string>): map<string, nat> {
    s.marks + map n | n in s.files && n in names :: |s.files[n]|
  }

  lemma CoveredSnoc(s: Store, names: seq<string>, x: string)
    ensures Covered(s, names + [x]) == if x in s.files then Covered(s, names)[x := |s.files[x]|] else Covered(s, names)
  {}

  method MarkEach(s: Store, names: seq<string>) returns (marks: map<string, nat>, count: nat)
    ensures marks == Covered(s, names) && count == |Present(s, names)|
  {
    marks, count := s.marks, 0;
    assert marks == Covered(s, []);
    for i := 0 to |names|
      invariant count == |Present(s, names[..i])| && marks == Covered(s, names[..i])
    {
      assert names[..i + 1] == names[..i] + [names[i]] && names[..i + 1][..i] == names[..i];
      CoveredSnoc(s, names[..i], names[i]);
      if names[i] in s.files {
        marks := marks[names[i] := |s.files[names[i]]|];
        count := count + 1;
      }
    }
    assert names[..|names|] == names;
  }

  lemma CoveredIsStep(s: Store, which: Selection, names: seq<string>)
    requires if which.All? then forall n :: n in names <==> n in s.files else names == which.names
    ensures Step(s, Mark(which)) == s.(marks := Covered(s, names))
  {}

  lemma AllPresent(s: Store, names: seq<string>)
    requires forall n :: n in names ==> n in s.files
    ensures |Present(s, names)| == |names|
  {}

  class Daily {
    var files: map<string, string>
    var marks: map<string, nat>

    constructor ()
      ensures State() == Exec([])
    {
      files, marks := map[], map[];
    }

    function State(): Store
      reads this
    {
      Store(files, marks)
    }

    method Append(day: string, time: string, conversation: string, observation: string)
      modifies this
      ensures State() == Step(old(State()), Action.Append(day, time, conversation, observation))
    {
      var name := day + ".md";
      var convTag := "";
      if conversation != "" {
        convTag := " \U{2014} " + conversation;
      }
      var block := "\n## " + time + convTag + "\n" + TrimRight(observation) + "\n";
      files := files[name := (if name in files then files[name] else "") + block];
    }

    method ReadPending(onlyUnprocessed: bool) returns (text: string)
      ensures text == Pending(State(), onlyUnprocessed)
    {
      var current: map<string, nat> := map[];
      if onlyUnprocessed {
        current := marks;
      }
      var names := ReadDir(files.Keys);
      text := Concatenate(Store(files, current), names);
    }

    method MarkProcessed(which: Selection) returns (count: nat)
      modifies this
      ensures State() == Step(old(State()), Action.Mark(which))
      ensures which.All? ==> count == |Names(files.Keys)|
      ensures which.Only? ==> count == |Present(old(State()), which.names)|
    {
      var names := if which.Only? then which.names else [];
      if which.All? {
        names := ReadDir(files.Keys);
        AllPresent(State(), names);
      }
      CoveredIsStep(State(), which, names);
      marks, count := MarkEach(State(), names);
    }
  }

  // ------------------------------------------------------------------ marks sit between observations

  /** The observation blocks appended to a file, in order. */
  function Blocks(acts: seq<Action>, name: string): seq<string> {
    if acts == [] then []
    else
      var a := acts[|acts| - 1];
      Blocks(acts[..|acts| - 1], name) +
      if Writes(a, name) then [Block(a.time, a.conversation, a.observation)] else []
  }

  /** How many blocks a file had when it was last marked. */
  function MarkedBlocks(acts: seq<Action>, name: string): nat {
    if acts == [] then 0
    else if Covers(acts[|acts| - 1], name) then |Blocks(acts, name)|
    else MarkedBlocks(acts[..|acts| - 1], name)
  }

  /** A file is its blocks. */
  lemma {:induction false} FileIsItsBlocks(acts: seq<Action>, name: string)
    ensures TextOf(Exec(acts), name) == Flatten(Blocks(acts, name))
    ensures name in Exec(acts).files <==> Blocks(acts, name) != []
  {
    if acts == [] {
    } else {
      var n := |acts| - 1;
      FileIsItsBlocks(acts[..n], name);
      var a := acts[n];
      if Writes(a, name) {
        FlattenSnoc(Blocks(acts[..n], name), Block(a.time, a.conversation, a.observation));
      } else {
        assert Blocks(acts, name) == Blocks(acts[..n], name);
      }
    }
  }

  lemma {:induction false} MarkedBlocksBounded(acts: seq<Action>, name: string)
    ensures MarkedBlocks(acts, name) <= |Blocks(acts, name)|
  {
    if acts == [] {
    } else {
      MarkedBlocksBounded(acts[..|acts| - 1], name);
    }
  }

  lemma {:induction false} MarkIsItsBlocks(acts: seq<Action>, name: string)
    ensures MarkedBlocks(acts, name) <= |Blocks(acts, name)|
    ensures MarkOf(Exec(acts), name) == |Flatten(Blocks(acts, name)[..MarkedBlocks(acts, name)])|
  {
    MarkedBlocksBounded(acts, name);
    if acts == [] {
    } else {
      var n := |acts| - 1;
      var before, blocks, k := acts[..n], Blocks(acts, name), MarkedBlocks(acts, name);
      MarkIsItsBlocks(before, name);
      if Covers(acts[n], name) {
        FileIsItsBlocks(before, name);
        assert blocks[..k] == blocks == Blocks(before, name);
      } else {
        assert blocks[..k] == Blocks(before, name)[..k];
        assert MarkOf(Exec(acts), name) == MarkOf(Exec(before), name);
      }
    }
  }

  lemma MarkCutsBlocks(text: string, blocks: seq<string>, k: nat)
    requires text == Flatten(blocks) && k <= |blocks|
    ensures var mark := |Flatten(blocks[..k])|; mark <= |text| && text[mark..] == Flatten(blocks[k..])
  {
    FlattenAppend(blocks[..k], blocks[k..]);
    assert blocks[..k] + blocks[k..] == blocks;
  }

  /** In every run each mark is the end of an observation, never past the end of its file, and
      what is past it is the observations made since. */
  lemma MarksSitBetweenObservations(acts: seq<Action>, name: string)
    ensures var blocks, k := Blocks(acts, name), MarkedBlocks(acts, name);
            && k <= |blocks|
            && MarkOf(Exec(acts), name) == |Flatten(blocks[..k])| <= |TextOf(Exec(acts), name)|
            && Tail(Exec(acts), name) == Flatten(blocks[k..])
  {
    MarkIsItsBlocks(acts, name);
    FileIsItsBlocks(acts, name);
    MarkCutsBlocks(TextOf(Exec(acts), name), Blocks(acts, name), MarkedBlocks(acts, name));
  }

  lemma StepKeepsMark(acts: seq<Action>, name: string)
    requires acts != []
    ensures MarkOf(Exec(acts[..|acts| - 1]), name) <= MarkOf(Exec(acts), name)
  {
    MarksSitBetweenObservations(acts[..|acts| - 1], name);
  }

  /** No mark ever moves back, and no written text ever changes. */
  lemma {:induction false} MarksNeverDecrease(acts: seq<Action>, more: seq<Action>, name: string)
    ensures MarkOf(Exec(acts), name) <= MarkOf(Exec(acts + more), name)
    ensures TextOf(Exec(acts), name) <= TextOf(Exec(acts + more), name)
  {
    if more == [] {
      assert acts + more == acts;
    } else {
      assert (acts + more)[..|acts + more| - 1] == acts + more[..|more| - 1];
      MarksNeverDecrease(acts, more[..|more| - 1], name);
      StepKeepsMark(acts + more, name);
    }
  }

  lemma BlocksAreHeaded(acts: seq<Action>, name: string, i: nat)
    requires i < |Blocks(acts, name)|
    ensures |Blocks(acts, name)[i]| >= 2 && Blocks(acts, name)[i][1] == '#'
  {}

  /** Skipping a chunk that is all space never hides an observation: a read shows a file
      exactly when its mark is not at its end. */
  lemma ReadShowsEveryPendingFile(acts: seq<Action>, name: string)
    ensures Chunk(Exec(acts), name) != [] <==> MarkOf(Exec(acts), name) < |TextOf(Exec(acts), name)|
  {
    MarksSitBetweenObservations(acts, name);
    var pending := Blocks(acts, name)[MarkedBlocks(acts, name)..];
    if pending != [] {
      BlocksAreHeaded(acts, name, MarkedBlocks(acts, name));
      assert Flatten(pending)[1] == '#';
      TrimmedAway(Tail(Exec(acts), name), 1);
    } else {
      assert Tail(Exec(acts), name) == "";
    }
  }

  // ------------------------------------------------------------------ what readers got

  /** What the last read since the file's last mark returned of it. */
  function LastRead(acts: seq<Action>, name: string): string {
    if acts == [] || Covers(acts[|acts| - 1], name) then ""
    else if acts[|acts| - 1].Read? then Tail(Exec(acts[..|acts| - 1]), name)
    else LastRead(acts[..|acts| - 1], name)
  }

  /** What was appended to the file since it was last read or marked. */
  function Unread(acts: seq<Action>, name: string): string {
    if acts == [] then ""
    else
      var a := acts[|acts| - 1];
      if Covers(a, name) || a.Read? then ""
      else Unread(acts[..|acts| - 1], name) +
           if Writes(a, name) then Block(a.time, a.conversation, a.observation) else ""
  }

  /** One mark of a file: what had been read before it, and what it skipped. */
  datatype Segment = Segment(read: string, skipped: string)

  function Segments(acts: seq<Action>, name: string): seq<Segment> {
    if acts == [] then []
    else
      var before := acts[..|acts| - 1];
      Segments(before, name) +
      if Covers(acts[|acts| - 1], name) then [Segment(LastRead(before, name), Unread(before, name))] else []
  }

  function Everything(segments: seq<Segment>): string {
    if segments == [] then ""
    else
      var last := segments[|segments| - 1];
      Everything(segments[..|segments| - 1]) + last.read + last.skipped
  }

  function Delivered(segments: seq<Segment>): string {
    if segments == [] then "" else Delivered(segments[..|segments| - 1]) + segments[|segments| - 1].read
  }

  /** What an action appends to a file. */
  function Added(a: Action, name: string): string {
    if Writes(a, name) then Block(a.time, a.conversation, a.observation) else ""
  }

  lemma StepGrows(s: Store, a: Action, name: string)
    requires MarkOf(s, name) <= |TextOf(s, name)| && !Covers(a, name)
    ensures TextOf(Step(s, a), name) == TextOf(s, name) + Added(a, name)
    ensures Tail(Step(s, a), name) == Tail(s, name) + Added(a, name)
  {
    assert MarkOf(Step(s, a), name) == MarkOf(s, name);
    assert TextOf(Step(s, a), name) == TextOf(s, name) + Added(a, name);
  }

  lemma TailGrows(acts: seq<Action>, name: string)
    requires acts != [] && !Covers(acts[|acts| - 1], name)
    ensures var s, t, a := Exec(acts[..|acts| - 1]), Exec(acts), acts[|acts| - 1];
            TextOf(t, name) == TextOf(s, name) + Added(a, name) && Tail(t, name) == Tail(s, name) + Added(a, name)
  {
    MarksSitBetweenObservations(acts[..|acts| - 1], name);
    StepGrows(Exec(acts[..|acts| - 1]), acts[|acts| - 1], name);
  }

  lemma StepCloses(s: Store, a: Action, name: string)
    requires MarkOf(s, name) <= |TextOf(s, name)| && Covers(a, name)
    ensures Tail(Step(s, a), name) == "" && TextOf(Step(s, a), name) == TextOf(s, name)
  {
    var t := Step(s, a);
    if name in s.files {
      assert t.marks[name] == |s.files[name]|;
    } else {
      assert MarkOf(t, name) == 0;
    }
  }

  /** A mark leaves nothing of its file pending. */
  lemma MarkCloses(acts: seq<Action>, name: string)
    requires acts != [] && Covers(acts[|acts| - 1], name)
    ensures Tail(Exec(acts), name) == ""
    ensures TextOf(Exec(acts), name) == TextOf(Exec(acts[..|acts| - 1]), name)
  {
    MarksSitBetweenObservations(acts[..|acts| - 1], name);
    StepCloses(Exec(acts[..|acts| - 1]), acts[|acts| - 1], name);
  }

  lemma ReadThenUnreadGrows(acts: seq<Action>, name: string)
    requires acts != [] && !Covers(acts[|acts| - 1], name)
    ensures var before, a := acts[..|acts| - 1], acts[|acts| - 1];
            LastRead(acts, name) + Unread(acts, name) ==
              if a.Read? then Tail(Exec(before), name)
              else LastRead(before, name) + Unread(before, name) + Added(a, name)
  {}

  /** Past the mark is what the last read returned and what came after it. */
  lemma {:induction false} TailIsReadThenUnread(acts: seq<Action>, name: string)
    ensures Tail(Exec(acts), name) == LastRead(acts, name) + Unread(acts, name)
  {
    if acts == [] {
      assert Exec(acts) == Store(map[], map[]);
    } else {
      var before, a := acts[..|acts| - 1], acts[|acts| - 1];
      if Covers(a, name) {
        MarkCloses(acts, name);
        assert LastRead(acts, name) == "" && Unread(acts, name) == "";
      } else {
        TailIsReadThenUnread(before, name);
        TailGrows(acts, name);
        ReadThenUnreadGrows(acts, name);
        assert a.Read? ==> Added(a, name) == "";
      }
    }
  }

  lemma Regroup(a: string, b: string, c: string)
    ensures a + (b + c) == a + b + c && a + b + c + "" == a + b + c
  {}

  lemma SegmentsSnoc(acts: seq<Action>, name: string)
    requires acts != []
    ensures var before := acts[..|acts| - 1];
            Everything(Segments(acts, name)) ==
              if Covers(acts[|acts| - 1], name)
              then Everything(Segments(before, name)) + LastRead(before, name) + Unread(before, name)
              else Everything(Segments(before, name))
  {
    var before, segments := acts[..|acts| - 1], Segments(acts, name);
    if Covers(acts[|acts| - 1], name) {
      assert segments[..|segments| - 1] == Segments(before, name);
    } else {
      assert segments == Segments(before, name);
    }
  }

  /** In every run a file is what was read before each mark, what each mark skipped, in order,
      and what is still pending. A skipped stretch is what was appended between the last read
      and the mark. */
  lemma {:induction false} NoByteVanishes(acts: seq<Action>, name: string)
    ensures Everything(Segments(acts, name)) + Tail(Exec(acts), name) == TextOf(Exec(acts), name)
  {
    if acts == [] {
    } else {
      var before := acts[..|acts| - 1];
      NoByteVanishes(before, name);
      SegmentsSnoc(acts, name);
      var done, tail := Everything(Segments(before, name)), Tail(Exec(before), name);
      if Covers(acts[|acts| - 1], name) {
        TailIsReadThenUnread(before, name);
        MarkCloses(acts, name);
        Regroup(done, LastRead(before, name), Unread(before, name));
      } else {
        TailGrows(acts, name);
        Regroup(done, tail, Added(acts[|acts| - 1], name));
      }
    }
  }

  ghost predicate NothingSkipped(segments: seq<Segment>) {
    forall i :: 0 <= i < |segments| ==> segments[i].skipped == ""
  }

  lemma {:induction false} DeliveredIffNothingSkipped(segments: seq<Segment>)
    ensures |Delivered(segments)| <= |Everything(segments)|
    ensures |Delivered(segments)| == |Everything(segments)| <==> NothingSkipped(segments)
    ensures NothingSkipped(segments) ==> Delivered(segments) == Everything(segments)
  {
    if segments == [] {
    } else {
      DeliveredIffNothingSkipped(segments[..|segments| - 1]);
    }
  }

  /** The file was written to since it was last read or marked. */
  predicate AppendedSince(acts: seq<Action>, name: string) {
    if acts == [] || Covers(acts[|acts| - 1], name) || acts[|acts| - 1].Read? then false
    else Writes(acts[|acts| - 1], name) || AppendedSince(acts[..|acts| - 1], name)
  }

  lemma {:induction false} UnreadIffAppended(acts: seq<Action>, name: string)
    ensures Unread(acts, name) != "" <==> AppendedSince(acts, name)
  {
    if acts == [] {
    } else {
      UnreadIffAppended(acts[..|acts| - 1], name);
    }
  }

  /** No mark of the file comes after a write that nobody has read. */
  ghost predicate MarksFollowReads(acts: seq<Action>, name: string) {
    forall k :: 0 <= k < |acts| && Covers(acts[k], name) ==> !AppendedSince(acts[..k], name)
  }

  lemma SkippedSnoc(segments: seq<Segment>, last: Segment)
    ensures NothingSkipped(segments + [last]) <==> NothingSkipped(segments) && last.skipped == ""
  {
    var all := segments + [last];
    assert all[|segments|] == last;
    assert forall i :: 0 <= i < |segments| ==> all[i] == segments[i];
  }

  lemma FollowSnoc(acts: seq<Action>, name: string)
    requires acts != []
    ensures var before := acts[..|acts| - 1];
            MarksFollowReads(acts, name) <==>
              MarksFollowReads(before, name) && (Covers(acts[|acts| - 1], name) ==> !AppendedSince(before, name))
  {
    var before := acts[..|acts| - 1];
    assert forall k :: 0 <= k < |before| ==> acts[..k] == before[..k] && acts[k] == before[k];
  }

  lemma {:induction false} SkippedIffUnread(acts: seq<Action>, name: string)
    ensures NothingSkipped(Segments(acts, name)) <==> MarksFollowReads(acts, name)
  {
    if acts == [] {
    } else {
      var before := acts[..|acts| - 1];
      SkippedIffUnread(before, name);
      UnreadIffAppended(before, name);
      FollowSnoc(acts, name);
      if Covers(acts[|acts| - 1], name) {
        SkippedSnoc(Segments(before, name), Segment(LastRead(before, name), Unread(before, name)));
      } else {
        assert Segments(acts, name) == Segments(before, name);
      }
    }
  }

  /** Consolidation loses nothing of a file, that is, what was read before each mark and what is
      pending are together the whole file, exactly when no append falls between a mark and the
      read before it. */
  lemma LosslessIff(acts: seq<Action>, name: string)
    ensures Delivered(Segments(acts, name)) + Tail(Exec(acts), name) == TextOf(Exec(acts), name)
       <==> MarksFollowReads(acts, name)
  {
    NoByteVanishes(acts, name);
    DeliveredIffNothingSkipped(Segments(acts, name));
    SkippedIffUnread(acts, name);
  }
}
