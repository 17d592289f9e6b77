/** The curated memory of one scope: active and archived entries, the INDEX.md that lists the
    active ones, and the audit trail (store/consolidated.go).

    A topic is a directory beside INDEX.md and LOG.md, so a topic of either name and the file
    exclude each other. Writing a file over a directory fails and the failure is ignored. */
module Consolidated {
  import opened Text
  import opened Sorting
  import opened Wrappers
  import opened EntryNames
  import AuditLog

  datatype Key = Key(topic: string, file: string)

  /** Case mapping, rune by rune, as `strings.ToUpper` and `strings.ToLower` do it. */
  datatype Letters = Letters(upper: char -> char, lower: char -> char)

  datatype Scope = Scope(letters: Letters, active: map<Key, string>, archive: map<Key, string>,
                         index: Option<string>, log: Option<string>)

  datatype Op =
    | Create(topic: string, entry: string, content: string)
    | Update(topic: string, entry: string, content: string)
    | Archive(topic: string, entry: string, reason: string, now: string)
    | Restore(topic: string, entry: string, now: string)
    | Purge(stale: set<Key>)

  /** One request, with whether its session may write the scope. */
  datatype Call = Call(writable: bool, op: Op)

  datatype Outcome = Done | ReadOnly | BadName | AlreadyExists | Missing | NotADirectory

  const INDEX_FILE := "INDEX.md"
  const LOG_FILE := "LOG.md"

  function Resolve(topic: string, entry: string): Option<Key> {
    match Sanitize(topic)
    case None => None
    case Some(safeTopic) =>
      match Sanitize(entry) case None => None case Some(safeEntry) => Some(Key(safeTopic, EnsureMd(safeEntry)))
  }

  // ------------------------------------------------------------------ the index

  predicate HasTopic(active: map<Key, string>, topic: string) { exists k :: k in active && k.topic == topic }

  /** The subdirectories and the markdown files a listing sees. */
  function Topics(active: map<Key, string>): set<string> {
    set k | k in active && !StartsWith(k.topic, ".") :: k.topic
  }

  function Files(entries: map<Key, string>, topic: string): set<string> {
    set k | k in entries && k.topic == topic && EndsWith(k.file, ".md") :: k.file
  }

  function HookText(s: string): string {
    seq(|s|, i requires 0 <= i < |s| => if s[i] == '-' || s[i] == '_' then ' ' else s[i])
  }

  function Capitalized(letters: Letters, word: string): string {
    if word == "" then ""
    else [letters.upper(word[0])] + seq(|word| - 1, i requires 0 <= i < |word| - 1 => letters.lower(word[i + 1]))
  }

  function TitleCase(letters: Letters, s: string): string {
    var words := Split(s, ' ');
    Join(seq(|words|, i requires 0 <= i < |words| => Capitalized(letters, words[i])), " ")
  }

  function Hooks(files: seq<string>): seq<string> {
    seq(|files|, i requires 0 <= i < |files| => HookText(Stem(files[i])))
  }

  function TopicLine(letters: Letters, topic: string, files: seq<string>): string {
    "- [" + TitleCase(letters, HookText(topic)) + "](" + topic + "/) \U{2014} " + Join(Hooks(files), ", ")
  }

  ghost function IndexLines(letters: Letters, active: map<Key, string>, topics: seq<string>): seq<string> {
    if topics == [] then []
    else
      var topic := topics[|topics| - 1];
      var files := Names(Files(active, topic));
      IndexLines(letters, active, topics[..|topics| - 1]) +
        if files == [] then [] else [TopicLine(letters, topic, files)]
  }

  /** What INDEX.md should hold: a line a topic in order of name, with its entries in order. */
  ghost function Render(letters: Letters, active: map<Key, string>): string {
    var lines := IndexLines(letters, active, Names(Topics(active)));
    if lines == [] then "" else Join(lines, "\n") + "\n"
  }

  /** A name as it is shown: a space for each dash and underscore. */
  lemma HooksKeepNames(name: string)
    ensures |HookText(name)| == |name|
    ensures forall i :: 0 <= i < |name| ==>
              HookText(name)[i] == if name[i] == '-' || name[i] == '_' then ' ' else name[i]
  {}

  /** Letter i of a title: upper-case at the start of a word and lower-case after it. */
  function TitleLetter(letters: Letters, s: string, i: nat): char
    requires i < |s|
  {
    if s[i] == ' ' then ' ' else if i == 0 || s[i - 1] == ' ' then letters.upper(s[i]) else letters.lower(s[i])
  }

  predicate IsTitle(letters: Letters, title: string, s: string) {
    |title| == |s| && forall i :: 0 <= i < |s| ==> title[i] == TitleLetter(letters, s, i)
  }

  lemma CapitalizedIsTitle(letters: Letters, word: string)
    requires ' ' !in word
    ensures IsTitle(letters, Capitalized(letters, word), word)
  {
    forall i | 0 <= i < |word| ensures word[i] != ' ' {
      assert word[i] in word;
    }
  }

  lemma LettersJoin(letters: Letters, a: string, b: string, i: nat)
    requires i < |a + " " + b|
    ensures TitleLetter(letters, a + " " + b, i) ==
              if i < |a| then TitleLetter(letters, a, i)
              else if i == |a| then ' '
              else TitleLetter(letters, b, i - |a| - 1)
  {
    var s := a + " " + b;
    assert i < |a| ==> s[i] == a[i] && (i > 0 ==> s[i - 1] == a[i - 1]);
    assert i == |a| ==> s[i] == ' ';
    assert i > |a| ==> s[i] == b[i - |a| - 1] && s[i - 1] == if i == |a| + 1 then ' ' else b[i - |a| - 2];
  }

  lemma TitlesJoin(letters: Letters, title: string, a: string, more: string, b: string)
    requires IsTitle(letters, title, a) && IsTitle(letters, more, b)
    ensures IsTitle(letters, title + " " + more, a + " " + b)
  {
    forall i | 0 <= i < |a + " " + b| ensures (title + " " + more)[i] == TitleLetter(letters, a + " " + b, i) {
      LettersJoin(letters, a, b, i);
    }
  }

  function Titles(letters: Letters, words: seq<string>): seq<string> {
    seq(|words|, i requires 0 <= i < |words| => Capitalized(letters, words[i]))
  }

  lemma {:induction false} JoinedTitles(letters: Letters, words: seq<string>)
    requires words != [] && forall i :: 0 <= i < |words| ==> ' ' !in words[i]
    ensures IsTitle(letters, Join(Titles(letters, words), " "), Join(words, " "))
  {
    CapitalizedIsTitle(letters, words[0]);
    if |words| > 1 {
      JoinedTitles(letters, words[1..]);
      assert Titles(letters, words)[1..] == Titles(letters, words[1..]);
      TitlesJoin(letters, Capitalized(letters, words[0]), words[0], Join(Titles(letters, words[1..]), " "),
                 Join(words[1..], " "));
    }
  }

  /** A topic's label is its title. */
  lemma LabelIsTitle(letters: Letters, s: string)
    ensures IsTitle(letters, TitleCase(letters, s), s)
  {
    SplitFree(s, ' ');
    JoinSplit(s, ' ');
    JoinedTitles(letters, Split(s, ' '));
  }

  function LinkOf(letters: Letters, topic: string): string {
    "[" + TitleCase(letters, HookText(topic)) + "](" + topic + "/)"
  }

  /** A topic's line holds its label with its link, */
  lemma LineNamesItsTopic(letters: Letters, topic: string, files: seq<string>)
    ensures Contains(TopicLine(letters, topic, files), LinkOf(letters, topic))
  {
    var hooks := Join(Hooks(files), ", ");
    assert TopicLine(letters, topic, files) == "- " + LinkOf(letters, topic) + (" \U{2014} " + hooks);
    ContainsMiddle("- ", LinkOf(letters, topic), " \U{2014} " + hooks);
  }

  /** and the text of each of its entries. */
  lemma LineNamesItsFiles(letters: Letters, topic: string, files: seq<string>, j: nat)
    requires j < |files|
    ensures Contains(TopicLine(letters, topic, files), HookText(Stem(files[j])))
  {
    var hooks := Join(Hooks(files), ", ");
    JoinContains(Hooks(files), ", ", j);
    ContainsThrough("- " + LinkOf(letters, topic) + " \U{2014} ", hooks, "", Hooks(files)[j]);
    assert TopicLine(letters, topic, files) == "- " + LinkOf(letters, topic) + " \U{2014} " + hooks + "";
  }

  ghost function LineOf(letters: Letters, active: map<Key, string>, topic: string): seq<string> {
    if Files(active, topic) == {} then [] else [TopicLine(letters, topic, Names(Files(active, topic)))]
  }

  lemma LastLine(letters: Letters, active: map<Key, string>, topics: seq<string>)
    requires topics != []
    ensures var n := |topics| - 1;
            IndexLines(letters, active, topics) ==
              IndexLines(letters, active, topics[..n]) + LineOf(letters, active, topics[n])
  {
    var n := |topics| - 1;
    assert Names(Files(active, topics[n])) == [] <==> Files(active, topics[n]) == {};
  }

  /** The lines of the index are those of the topics, in order. */
  lemma {:induction false} IndexIsItsTopics(letters: Letters, active: map<Key, string>, topics: seq<string>,
                                            lineOf: string -> seq<string>)
    requires forall topic :: lineOf(topic) == LineOf(letters, active, topic)
    ensures IndexLines(letters, active, topics) == FlatMap(lineOf, topics)
  {
    if topics == [] {
    } else {
      IndexIsItsTopics(letters, active, topics[..|topics| - 1], lineOf);
      LastLine(letters, active, topics);
    }
  }

  /** The index names every topic and every entry a listing sees. */
  lemma IndexNamesEveryEntry(letters: Letters, active: map<Key, string>, k: Key)
    requires k in active && !StartsWith(k.topic, ".") && EndsWith(k.file, ".md")
    ensures exists line :: line in IndexLines(letters, active, Names(Topics(active))) &&
              Contains(line, LinkOf(letters, k.topic)) && Contains(line, HookText(Stem(k.file)))
  {
    var topics, files := Names(Topics(active)), Names(Files(active, k.topic));
    assert k.topic in Topics(active) && k.file in Files(active, k.topic);
    var i :| 0 <= i < |topics| && topics[i] == k.topic;
    var j :| 0 <= j < |files| && files[j] == k.file;
    var line := TopicLine(letters, k.topic, files);
    var lineOf := (topic: string) => LineOf(letters, active, topic);
    IndexIsItsTopics(letters, active, topics, lineOf);
    FlatMapHas(lineOf, topics, i, line);
    LineNamesItsTopic(letters, k.topic, files);
    LineNamesItsFiles(letters, k.topic, files, j);
  }

  method HooksOf(files: seq<string>) returns (hooks: seq<string>)
    ensures hooks == Hooks(files)
  {
    hooks := [];
    for j := 0 to |files|
      invariant hooks == Hooks(files[..j])
    {
      hooks := hooks + [HookText(Stem(files[j]))];
    }
    assert files[..|files|] == files;
  }

  lemma IndexLinesNext(letters: Letters, active: map<Key, string>, topics: seq<string>, i: nat)
    requires i < |topics|
    ensures var files := Names(Files(active, topics[i]));
            IndexLines(letters, active, topics[..i + 1]) ==
              IndexLines(letters, active, topics[..i]) +
                if files == [] then [] else [TopicLine(letters, topics[i], files)]
  {
    assert topics[..i + 1][..i] == topics[..i];
  }

  /** Walk the active tree and build the index text. */
  method RebuildIndex(letters: Letters, active: map<Key, string>) returns (content: string)
    ensures content == Render(letters, active)
  {
    var lines := [];
    var topics := ReadDir(Topics(active));
    for i := 0 to |topics|
      invariant lines == IndexLines(letters, active, topics[..i])
    {
      IndexLinesNext(letters, active, topics, i);
      var files := ReadDir(Files(active, topics[i]));
      var hooks := HooksOf(files);
      if hooks != [] {
        var shown := TitleCase(letters, HookText(topics[i]));
        lines := lines + ["- [" + shown + "](" + topics[i] + "/) \U{2014} " + Join(hooks, ", ")];
      }
    }
    assert topics[..|topics|] == topics;
    content := if lines == [] then "" else Join(lines, "\n") + "\n";
  }

  // ------------------------------------------------------------------ what each call does

  /** A topic directory cannot be made where INDEX.md or LOG.md already is a file. */
  predicate Blocked(s: Scope, topic: string) {
    (topic == INDEX_FILE && s.index.Some?) || (topic == LOG_FILE && s.log.Some?)
  }

  function OutcomeOf(s: Scope, c: Call): Outcome {
    if c.op.Purge? then Done
    else if !c.writable then ReadOnly
    else
      match Resolve(c.op.topic, c.op.entry)
      case None => BadName
      case Some(k) =>
        match c.op
        case Create(_, _, _) =>
          if k in s.active then AlreadyExists else if Blocked(s, k.topic) then NotADirectory else Done
        case Update(_, _, _) => if k in s.active then Done else Missing
        case Archive(_, _, _, _) => if k in s.active then Done else Missing
        case Restore(_, _, _) =>
          if k !in s.archive then Missing else if Blocked(s, k.topic) then NotADirectory else Done
  }

  predicate Succeeds(s: Scope, c: Call) { OutcomeOf(s, c) == Done }

  /** The entry a call other than a purge is about. */
  function Target(op: Op): Option<Key> { if op.Purge? then None else Resolve(op.topic, op.entry) }

  ghost function Reindexed(s: Scope): Scope {
    if HasTopic(s.active, INDEX_FILE) then s else s.(index := Some(Render(s.letters, s.active)))
  }

  function LogText(s: Scope): string { if s.log.Some? then s.log.value else "" }

  function Logged(s: Scope, r: AuditLog.Record): Scope {
    if HasTopic(s.active, LOG_FILE) then s
    else s.(log := Some(LogText(s) + AuditLog.Terminated(AuditLog.LinesOf(r))))
  }

  /** The audit record of a successful call: moves are logged, creations and updates are not. */
  function Entry(op: Op): Option<AuditLog.Record> {
    match op
    case Archive(topic, entry, reason, now) =>
      (match Resolve(topic, entry)
       case None => None
       case Some(k) =>
         Some(AuditLog.Record(now, "archive",
                              ["Archived " + topic + "/" + k.file +
                               if reason == "" then "" else " (reason: " + reason + ")"])))
    case Restore(topic, entry, now) =>
      (match Resolve(topic, entry)
       case None => None
       case Some(k) => Some(AuditLog.Record(now, "restore", ["Restored " + topic + "/" + k.file])))
    case _ => None
  }

  function Purged(s: Scope, stale: set<Key>): set<Key> {
    set k | k in s.archive && k in stale && EndsWith(k.file, ".md")
  }

  ghost function Step(s: Scope, c: Call): Scope {
    if !Succeeds(s, c) then s
    else
      match c.op
      case Create(topic, entry, content) =>
        Reindexed(s.(active := s.active[Resolve(topic, entry).value := TrimRight(content) + "\n"]))
      case Update(topic, entry, content) =>
        Reindexed(s.(active := s.active[Resolve(topic, entry).value := TrimRight(content) + "\n"]))
      case Archive(topic, entry, _, _) =>
        var k := Resolve(topic, entry).value;
        Logged(Reindexed(s.(active := s.active - {k}, archive := s.archive[k := s.active[k]])), Entry(c.op).value)
      case Restore(topic, entry, _) =>
        var k := Resolve(topic, entry).value;
        Logged(Reindexed(s.(active := s.active[k := s.archive[k]], archive := s.archive - {k})), Entry(c.op).value)
      case Purge(stale) => s.(archive := s.archive - Purged(s, stale))
  }

  function Fresh(letters: Letters): Scope { Scope(letters, map[], map[], None, None) }

  ghost function ExecFrom(s: Scope, calls: seq<Call>): Scope {
    if calls == [] then s else Step(ExecFrom(s, calls[..|calls| - 1]), calls[|calls| - 1])
  }

  /** A run of calls over a scope nothing was written to before. */
  ghost function Exec(letters: Letters, calls: seq<Call>): Scope { ExecFrom(Fresh(letters), calls) }

  /** The stale entries of some topics. */
  function PurgedIn(entries: map<Key, string>, topics: seq<string>, stale: set<Key>): set<Key> {
    set k | k in entries && k in stale && EndsWith(k.file, ".md") && k.topic in topics
  }

  function PurgedOf(entries: map<Key, string>, topic: string, stale: set<Key>): set<Key> {
    set k | k in entries && k in stale && EndsWith(k.file, ".md") && k.topic == topic
  }

  lemma PurgedInNext(entries: map<Key, string>, topics: seq<string>, i: nat, stale: set<Key>)
    requires i < |topics|
    ensures var before := PurgedIn(entries, topics[..i], stale);
            var gone := PurgedOf(entries - before, topics[i], stale);
            before !! gone && before + gone == PurgedIn(entries, topics[..i + 1], stale)
  {
    assert topics[..i + 1] == topics[..i] + [topics[i]];
  }

  lemma WithoutMore(entries: map<Key, string>, a: set<Key>, b: set<Key>)
    ensures entries - a - b == entries - (a + b)
  {}

  lemma PurgedNext(entries: map<Key, string>, topics: seq<string>, i: nat, stale: set<Key>)
    requires i < |topics|
    ensures var before, all := PurgedIn(entries, topics[..i], stale), PurgedIn(entries, topics[..i + 1], stale);
            var gone := PurgedOf(entries - before, topics[i], stale);
            entries - before - gone == entries - all && |before| + |gone| == |all|
  {
    var before := PurgedIn(entries, topics[..i], stale);
    PurgedInNext(entries, topics, i, stale);
    WithoutMore(entries, before, PurgedOf(entries - before, topics[i], stale));
  }

  function Named(topic: string, files: seq<string>, stale: set<Key>): set<Key> {
    set file | file in files && Key(topic, file) in stale :: Key(topic, file)
  }

  lemma NamedNext(topic: string, files: seq<string>, j: nat, stale: set<Key>)
    requires j < |files| && files[j] !in files[..j]
    ensures var k, before := Key(topic, files[j]), Named(topic, files[..j], stale);
            k !in before && Named(topic, files[..j + 1], stale) == if k in stale then before + {k} else before
  {
    var k, before, all := Key(topic, files[j]), Named(topic, files[..j], stale), Named(topic, files[..j + 1], stale);
    assert files[..j + 1] == files[..j] + [files[j]];
    forall x ensures x in all <==> x in before + if k in stale then {k} else {} {
      assert x in before <==> x.topic == topic && x.file in files[..j] && x in stale;
      assert x in all <==> x.topic == topic && x.file in files[..j + 1] && x in stale;
    }
  }

  lemma NamedIsPurged(entries: map<Key, string>, topic: string, files: seq<string>, stale: set<Key>)
    requires forall f :: f in files <==> f in Files(entries, topic)
    ensures Named(topic, files, stale) == PurgedOf(entries, topic, stale)
  {
    forall x ensures x in Named(topic, files, stale) <==> x in PurgedOf(entries, topic, stale) {
      assert x.file in files <==> x.file in Files(entries, topic);
    }
  }

  lemma PurgeNext(entries: map<Key, string>, topic: string, files: seq<string>, j: nat, stale: set<Key>)
    requires j < |files| && files[j] !in files[..j]
    ensures var k := Key(topic, files[j]);
            var before, after := Named(topic, files[..j], stale), Named(topic, files[..j + 1], stale);
            && entries - after == (if k in stale then entries - before - {k} else entries - before)
            && |after| == |before| + if k in stale then 1 else 0
  {
    NamedNext(topic, files, j, stale);
    WithoutMore(entries, Named(topic, files[..j], stale), {Key(topic, files[j])});
  }

  method PurgeTopic(entries: map<Key, string>, topic: string, stale: set<Key>)
    returns (left: map<Key, string>, count: nat)
    ensures left == entries - PurgedOf(entries, topic, stale) && count == |PurgedOf(entries, topic, stale)|
  {
    left, count := entries, 0;
    var files := ReadDir(Files(entries, topic));
    for j := 0 to |files|
      invariant left == entries - Named(topic, files[..j], stale)
      invariant count == |Named(topic, files[..j], stale)|
    {
      PurgeNext(entries, topic, files, j, stale);
      var k := Key(topic, files[j]);
      if k in stale {
        left, count := left - {k}, count + 1;
      }
    }
    assert files[..|files|] == files;
    NamedIsPurged(entries, topic, files, stale);
  }

  method PurgeTopics(entries: map<Key, string>, topics: seq<string>, stale: set<Key>)
    returns (left: map<Key, string>, purged: nat)
    ensures left == entries - PurgedIn(entries, topics, stale) && purged == |PurgedIn(entries, topics, stale)|
  {
    left, purged := entries, 0;
    for i := 0 to |topics|
      invariant left == entries - PurgedIn(entries, topics[..i], stale)
      invariant purged == |PurgedIn(entries, topics[..i], stale)|
    {
      PurgedNext(entries, topics, i, stale);
      var count;
      left, count := PurgeTopic(left, topics[i], stale);
      purged := purged + count;
    }
    assert topics[..|topics|] == topics;
  }

  lemma AllTopicsPurged(s: Scope, topics: seq<string>, stale: set<Key>)
    requires topics == Names(set k | k in s.archive :: k.topic)
    ensures PurgedIn(s.archive, topics, stale) == Purged(s, stale)
  {
    forall k | k in s.archive ensures k.topic in topics {
      assert k.topic in (set x | x in s.archive :: x.topic);
    }
  }

  // ------------------------------------------------------------------ the store

  class Store {
    var active: map<Key, string>
    var archive: map<Key, string>
    var index: Option<string>
    var log: Option<string>
    const writable: bool
    const letters: Letters

    constructor (writable: bool, letters: Letters)
      ensures State() == Fresh(letters) && this.writable == writable
    {
      active, archive, index, log := map[], map[], None, None;
      this.writable, this.letters := writable, letters;
    }

    function State(): Scope
      reads this
    {
      Scope(letters, active, archive, index, log)
    }

    method WriteIndex()
      modifies this`index
      ensures State() == Reindexed(old(State()))
    {
      var content := RebuildIndex(letters, active);
      if !HasTopic(active, INDEX_FILE) {
        index := Some(content);
      }
    }

    method AppendLog(now: string, action: string, details: seq<string>)
      modifies this`log
      ensures State() == Logged(old(State()), AuditLog.Record(now, action, details))
    {
      var block := AuditLog.BlockOf(now, action, details);
      if !HasTopic(active, LOG_FILE) {
        log := Some((if log.Some? then log.value else "") + block);
      }
    }

    method Create(topic: string, entry: string, content: string) returns (outcome: Outcome)
      modifies this
      ensures var c := Call(writable, Op.Create(topic, entry, content));
              outcome == OutcomeOf(old(State()), c) && State() == Step(old(State()), c)
    {
      if !writable {
        return ReadOnly;
      }
      var safeTopic, safeEntry := Sanitize(topic), Sanitize(entry);
      if safeTopic.None? || safeEntry.None? {
        return BadName;
      }
      var k := Key(safeTopic.value, EnsureMd(safeEntry.value));
      if k in active {
        return AlreadyExists;
      }
      if Blocked(State(), k.topic) {
        return NotADirectory;
      }
      active := active[k := TrimRight(content) + "\n"];
      WriteIndex();
      outcome := Done;
    }

    method Update(topic: string, entry: string, content: string) returns (outcome: Outcome)
      modifies this
      ensures var c := Call(writable, Op.Update(topic, entry, content));
              outcome == OutcomeOf(old(State()), c) && State() == Step(old(State()), c)
    {
      if !writable {
        return ReadOnly;
      }
      var safeTopic, safeEntry := Sanitize(topic), Sanitize(entry);
      if safeTopic.None? || safeEntry.None? {
        return BadName;
      }
      var k := Key(safeTopic.value, EnsureMd(safeEntry.value));
      if k !in active {
        return Missing;
      }
      active := active[k := TrimRight(content) + "\n"];
      WriteIndex();
      outcome := Done;
    }

    method Archive(topic: string, entry: string, reason: string, now: string) returns (outcome: Outcome)
      modifies this
      ensures var c := Call(writable, Op.Archive(topic, entry, reason, now));
              outcome == OutcomeOf(old(State()), c) && State() == Step(old(State()), c)
    {
      if !writable {
        return ReadOnly;
      }
      var safeTopic, safeEntry := Sanitize(topic), Sanitize(entry);
      if safeTopic.None? || safeEntry.None? {
        return BadName;
      }
      var k := Key(safeTopic.value, EnsureMd(safeEntry.value));
      if k !in active {
        return Missing;
      }
      archive := archive[k := active[k]];
      active := active - {k};
      WriteIndex();
      var detail := "Archived " + topic + "/" + k.file;
      if reason != "" {
        detail := detail + (" (reason: " + reason + ")");
      }
      assert reason == "" ==> detail + "" == detail;
      AppendLog(now, "archive", [detail]);
      outcome := Done;
    }

    method Restore(topic: string, entry: string, now: string) returns (outcome: Outcome)
      modifies this
      ensures var c := Call(writable, Op.Restore(topic, entry, now));
              outcome == OutcomeOf(old(State()), c) && State() == Step(old(State()), c)
    {
      if !writable {
        return ReadOnly;
      }
      var safeTopic, safeEntry := Sanitize(topic), Sanitize(entry);
      if safeTopic.None? || safeEntry.None? {
        return BadName;
      }
      var k := Key(safeTopic.value, EnsureMd(safeEntry.value));
      if k !in archive {
        return Missing;
      }
      if Blocked(State(), k.topic) {
        return NotADirectory;
      }
      active := active[k := archive[k]];
      archive := archive - {k};
      WriteIndex();
      AppendLog(now, "restore", ["Restored " + topic + "/" + k.file]);
      outcome := Done;
    }

    /** `stale` holds the entries whose files are older than the cutoff. */
    method PurgeArchive(stale: set<Key>) returns (purged: nat)
      modifies this`archive
      ensures State() == Step(old(State()), Call(writable, Purge(stale)))
      ensures purged == |Purged(old(State()), stale)|
    {
      var topics := ReadDir(set k | k in archive :: k.topic);
      AllTopicsPurged(State(), topics, stale);
      archive, purged := PurgeTopics(archive, topics, stale);
    }
  }

  // ------------------------------------------------------------------ the index is always current

  ghost predicate Writes(s: Scope, c: Call) { !c.op.Purge? && Succeeds(s, c) }

  /** A call that rewrites the index succeeded at some point of the run. */
  ghost predicate Written(letters: Letters, calls: seq<Call>) {
    calls != [] &&
    var n := |calls| - 1;
    Written(letters, calls[..n]) || Writes(Exec(letters, calls[..n]), calls[n])
  }

  ghost predicate IndexInv(s: Scope, written: bool) {
    && (s.index.Some? <==> written && !HasTopic(s.active, INDEX_FILE))
    && (s.index.Some? ==> s.index.value == Render(s.letters, s.active))
    && (s.log.Some? ==> !HasTopic(s.active, LOG_FILE))
  }

  lemma TopicsAfter(active: map<Key, string>, k: Key, body: string, topic: string)
    ensures HasTopic(active[k := body], topic) <==> HasTopic(active, topic) || k.topic == topic
    ensures HasTopic(active - {k}, topic) ==> HasTopic(active, topic)
  {
    var more, less := active[k := body], active - {k};
    assert k in more;
    forall x | x in active && x.topic == topic ensures HasTopic(more, topic) {
      assert x in more;
    }
    forall x | x in less && x.topic == topic ensures HasTopic(active, topic) {
      assert x in active;
    }
  }

  ghost function Placed(s: Scope, active: map<Key, string>, archive: map<Key, string>): Scope {
    Reindexed(s.(active := active, archive := archive))
  }

  lemma WriteKeepsIndex(s: Scope, written: bool, k: Key, body: string, archive: map<Key, string>)
    requires IndexInv(s, written) && (k in s.active || !Blocked(s, k.topic))
    ensures IndexInv(Placed(s, s.active[k := body], archive), true)
  {
    TopicsAfter(s.active, k, body, INDEX_FILE);
    TopicsAfter(s.active, k, body, LOG_FILE);
    assert k in s.active ==> HasTopic(s.active, k.topic);
  }

  lemma RemoveKeepsIndex(s: Scope, written: bool, k: Key, archive: map<Key, string>)
    requires IndexInv(s, written)
    ensures IndexInv(Placed(s, s.active - {k}, archive), true)
  {
    TopicsAfter(s.active, k, "", INDEX_FILE);
    TopicsAfter(s.active, k, "", LOG_FILE);
  }

  lemma LoggedKeepsIndex(s: Scope, r: AuditLog.Record)
    requires IndexInv(s, true)
    ensures IndexInv(Logged(s, r), true)
  {}

  lemma StepKeepsIndex(s: Scope, c: Call, written: bool)
    requires IndexInv(s, written) && (!written ==> s.active == map[])
    ensures var now := written || Writes(s, c);
            IndexInv(Step(s, c), now) && (!now ==> Step(s, c).active == map[])
  {
    if Succeeds(s, c) && !c.op.Purge? {
      var k := Target(c.op).value;
      match c.op
      case Create(_, _, content) => WriteKeepsIndex(s, written, k, TrimRight(content) + "\n", s.archive);
      case Update(_, _, content) => WriteKeepsIndex(s, written, k, TrimRight(content) + "\n", s.archive);
      case Archive(_, _, _, _) =>
        var archive := s.archive[k := s.active[k]];
        RemoveKeepsIndex(s, written, k, archive);
        LoggedKeepsIndex(Placed(s, s.active - {k}, archive), Entry(c.op).value);
      case Restore(_, _, _) =>
        WriteKeepsIndex(s, written, k, s.archive[k], s.archive - {k});
        LoggedKeepsIndex(Placed(s, s.active[k := s.archive[k]], s.archive - {k}), Entry(c.op).value);
    }
  }

  lemma StepKeepsLetters(s: Scope, c: Call)
    ensures Step(s, c).letters == s.letters
  {}

  lemma {:induction false} RunKeepsIndex(letters: Letters, calls: seq<Call>)
    ensures Exec(letters, calls).letters == letters
    ensures IndexInv(Exec(letters, calls), Written(letters, calls)) &&
            (!Written(letters, calls) ==> Exec(letters, calls).active == map[])
  {
    if calls == [] {
    } else {
      RunKeepsIndex(letters, calls[..|calls| - 1]);
      StepKeepsLetters(Exec(letters, calls[..|calls| - 1]), calls[|calls| - 1]);
      StepKeepsIndex(Exec(letters, calls[..|calls| - 1]), calls[|calls| - 1], Written(letters, calls[..|calls| - 1]));
    }
  }

  /** In every run, once anything has been written, INDEX.md is the rendering of the active tree
      exactly when no topic is itself called INDEX.md; failed calls and purges leave it so. */
  lemma IndexIsCurrentIff(letters: Letters, calls: seq<Call>)
    requires Written(letters, calls)
    ensures Exec(letters, calls).index == Some(Render(letters, Exec(letters, calls).active)) <==>
            !HasTopic(Exec(letters, calls).active, INDEX_FILE)
  {
    RunKeepsIndex(letters, calls);
  }

  lemma IndexStays(s: Scope, c: Call)
    requires s.index.Some?
    ensures Step(s, c).index.Some?
  {}

  lemma LogStays(s: Scope, c: Call)
    requires s.log.Some?
    ensures Step(s, c).log.Some?
  {}

  /** Such a topic can only be made in a scope nothing was written to before. */
  lemma IndexTopicOnlyFirst(letters: Letters, calls: seq<Call>, c: Call)
    requires Written(letters, calls) && !HasTopic(Exec(letters, calls).active, INDEX_FILE)
    ensures !HasTopic(Step(Exec(letters, calls), c).active, INDEX_FILE)
  {
    RunKeepsIndex(letters, calls);
    StepKeepsIndex(Exec(letters, calls), c, true);
    IndexStays(Exec(letters, calls), c);
  }

  lemma {:induction false} SameLines(letters: Letters, a: map<Key, string>, b: map<Key, string>, topics: seq<string>)
    requires a.Keys == b.Keys
    ensures IndexLines(letters, a, topics) == IndexLines(letters, b, topics)
  {
    if topics == [] {
    } else {
      SameLines(letters, a, b, topics[..|topics| - 1]);
      assert Files(a, topics[|topics| - 1]) == Files(b, topics[|topics| - 1]);
    }
  }

  lemma SameNamesSameIndex(letters: Letters, a: map<Key, string>, b: map<Key, string>)
    requires a.Keys == b.Keys
    ensures Render(letters, a) == Render(letters, b)
  {
    assert Topics(a) == Topics(b);
    SameLines(letters, a, b, Names(Topics(a)));
  }

  lemma UpdateKeepsNames(s: Scope, c: Call)
    requires IndexInv(s, true) && c.op.Update?
    ensures Step(s, c).index == s.index
  {
    if Succeeds(s, c) {
      var k := Target(c.op).value;
      var active := s.active[k := TrimRight(c.op.content) + "\n"];
      SameNamesSameIndex(s.letters, s.active, active);
      TopicsAfter(s.active, k, TrimRight(c.op.content) + "\n", INDEX_FILE);
      assert HasTopic(s.active, k.topic);
    }
  }

  /** An update never changes the index: it lists names only. */
  lemma UpdateKeepsIndex(letters: Letters, calls: seq<Call>, c: Call)
    requires Written(letters, calls) && c.op.Update?
    ensures Step(Exec(letters, calls), c).index == Exec(letters, calls).index
  {
    RunKeepsIndex(letters, calls);
    UpdateKeepsNames(Exec(letters, calls), c);
  }

  // ------------------------------------------------------------------ what calls do

  /** A refused call changes nothing; sessions that may not write, creations over an entry and updates of
      none are refused. */
  lemma RefusedCallsChangeNothing(s: Scope, c: Call)
    ensures !Succeeds(s, c) ==> Step(s, c) == s
    ensures !c.writable && !c.op.Purge? ==> !Succeeds(s, c)
    ensures c.op.Create? && Target(c.op).Some? && Target(c.op).value in s.active ==> !Succeeds(s, c)
    ensures c.op.Update? && Target(c.op).Some? && Target(c.op).value !in s.active ==> !Succeeds(s, c)
    ensures !c.op.Purge? && Target(c.op).None? ==> !Succeeds(s, c)
  {}

  /** A creation that names a new entry by two good names succeeds where nothing is in its way, an
      update of an entry always. */
  lemma GoodCallsSucceed(s: Scope, c: Call, k: Key)
    requires c.writable && Target(c.op) == Some(k)
    ensures c.op.Create? && k !in s.active && !Blocked(s, k.topic) ==> Succeeds(s, c)
    ensures c.op.Update? && k in s.active ==> Succeeds(s, c)
    ensures c.op.Archive? && k in s.active ==> Succeeds(s, c)
    ensures c.op.Restore? && k in s.archive && !Blocked(s, k.topic) ==> Succeeds(s, c)
  {}

  /** Two clean names are the topic and, with the extension if it lacks it, the file of an entry. */
  lemma CleanNamesAreTheEntry(op: Op)
    requires !op.Purge? && Clean(op.topic) && Clean(op.entry)
    ensures Target(op) == Some(Key(op.topic, if EndsWith(op.entry, ".md") then op.entry else op.entry + ".md"))
  {
    CleanIsKept(op.topic);
    CleanIsKept(op.entry);
  }

  /** What is written is the content given, without the space at its end, and a newline. */
  lemma WritesStoreTheContent(s: Scope, c: Call, k: Key)
    requires (c.op.Create? || c.op.Update?) && Target(c.op) == Some(k) && Succeeds(s, c)
    ensures k in Step(s, c).active
    ensures var body := Step(s, c).active[k]; var n := |body| - 1;
            && n >= 0 && body[n] == '\n' && body[..n] <= c.op.content
            && (n > 0 ==> !IsSpace(body[n - 1]))
            && forall i :: n <= i < |c.op.content| ==> IsSpace(c.op.content[i])
  {
    var text := TrimRight(c.op.content);
    assert Step(s, c).active[k] == text + "\n";
    assert (text + "\n")[..|text|] == text;
  }

  /** A purge takes exactly the stale entries out of the archive. */
  lemma PurgeTakesTheStale(s: Scope, c: Call, k: Key)
    requires c.op.Purge?
    ensures k in Step(s, c).archive <==> k in s.archive && !(k in c.op.stale && EndsWith(k.file, ".md"))
  {}

  lemma ArchiveDetail(name: string, reason: string)
    ensures var detail := "Archived " + name + if reason == "" then "" else " (reason: " + reason + ")";
            Contains(detail, name) && (reason != "" ==> Contains(detail, "(reason: " + reason + ")"))
  {
    var given := "(reason: " + reason + ")";
    ContainsMiddle("Archived ", name, if reason == "" then "" else " (reason: " + reason + ")");
    if reason != "" {
      ContainsMiddle("Archived " + name + " ", given, "");
      assert "Archived " + name + (" (reason: " + reason + ")") == "Archived " + name + " " + given + "";
    }
  }

  lemma RestoreDetail(name: string)
    ensures Contains("Restored " + name, name)
  {
    ContainsMiddle("Restored ", name, "");
    assert "Restored " + name + "" == "Restored " + name;
  }

  lemma ArchiveEntry(op: Op, k: Key)
    requires op.Archive? && Target(op) == Some(k)
    ensures Entry(op) == Some(AuditLog.Record(op.now, "archive",
                              ["Archived " + op.topic + "/" + k.file +
                               if op.reason == "" then "" else " (reason: " + op.reason + ")"]))
  {}

  lemma RestoreEntry(op: Op, k: Key)
    requires op.Restore? && Target(op) == Some(k)
    ensures Entry(op) == Some(AuditLog.Record(op.now, "restore", ["Restored " + op.topic + "/" + k.file]))
  {}

  /** The record of an archived entry has the time, and names the entry and the reason; */
  lemma ArchiveRecordNamesIt(op: Op, k: Key)
    requires op.Archive? && Target(op) == Some(k)
    ensures Entry(op).Some? && |Entry(op).value.details| == 1
    ensures var r := Entry(op).value; var detail := r.details[0];
            && r.timestamp == op.now && r.action == "archive" && Contains(detail, op.topic + "/" + k.file)
            && (op.reason != "" ==> Contains(detail, "(reason: " + op.reason + ")"))
  {
    var name, tail := op.topic + "/" + k.file, if op.reason == "" then "" else " (reason: " + op.reason + ")";
    ArchiveEntry(op, k);
    ArchiveDetail(name, op.reason);
    assert "Archived " + op.topic + "/" + k.file + tail == "Archived " + name + tail;
  }

  /** that of a restored one the time and the entry. */
  lemma RestoreRecordNamesIt(op: Op, k: Key)
    requires op.Restore? && Target(op) == Some(k)
    ensures Entry(op).Some? && |Entry(op).value.details| == 1
    ensures var r := Entry(op).value;
            r.timestamp == op.now && r.action == "restore" && Contains(r.details[0], op.topic + "/" + k.file)
  {
    RestoreEntry(op, k);
    RestoreDetail(op.topic + "/" + k.file);
    assert "Restored " + op.topic + "/" + k.file == "Restored " + (op.topic + "/" + k.file);
  }

  /** Nothing else is recorded. */
  lemma OnlyMovesAreRecorded(op: Op)
    ensures Entry(op).Some? <==> (op.Archive? || op.Restore?) && Target(op).Some?
  {}

  // ------------------------------------------------------------------ what calls leave alone

  /** Both trees hold the same of `k`. */
  ghost predicate SameAt(a: map<Key, string>, b: map<Key, string>, k: Key) {
    (k in a <==> k in b) && (k in a ==> a[k] == b[k])
  }

  lemma WritesTouchOnlyTheirEntry(s: Scope, c: Call, k: Key)
    requires (c.op.Create? || c.op.Update?) && Target(c.op) != Some(k)
    ensures SameAt(Step(s, c).active, s.active, k) && Step(s, c).archive == s.archive
  {}

  lemma ArchiveTouchesOnlyItsEntry(s: Scope, c: Call, k: Key)
    requires c.op.Archive? && Target(c.op) != Some(k)
    ensures SameAt(Step(s, c).active, s.active, k) && SameAt(Step(s, c).archive, s.archive, k)
  {}

  lemma RestoreTouchesOnlyItsEntry(s: Scope, c: Call, k: Key)
    requires c.op.Restore? && Target(c.op) != Some(k)
    ensures SameAt(Step(s, c).active, s.active, k) && SameAt(Step(s, c).archive, s.archive, k)
  {}

  lemma PurgeTouchesOnlyStale(s: Scope, c: Call, k: Key)
    requires c.op.Purge?
    ensures Step(s, c).active == s.active
    ensures k !in c.op.stale ==> SameAt(Step(s, c).archive, s.archive, k)
  {}

  /** Each call touches only its own entry; a purge touches only stale archived ones. */
  lemma TouchesOnlyItsEntry(s: Scope, c: Call, k: Key)
    requires Target(c.op) != Some(k)
    ensures SameAt(Step(s, c).active, s.active, k)
    ensures !(c.op.Purge? && k in c.op.stale) ==> SameAt(Step(s, c).archive, s.archive, k)
  {
    match c.op
    case Purge(_) => PurgeTouchesOnlyStale(s, c, k);
    case Create(_, _, _) => WritesTouchOnlyTheirEntry(s, c, k);
    case Update(_, _, _) => WritesTouchOnlyTheirEntry(s, c, k);
    case Archive(_, _, _, _) => ArchiveTouchesOnlyItsEntry(s, c, k);
    case Restore(_, _, _) => RestoreTouchesOnlyItsEntry(s, c, k);
  }

  /** An entry's body is in exactly one of the two trees after it moves, and unchanged. */
  lemma MovesKeepTheBody(s: Scope, c: Call, k: Key)
    requires Succeeds(s, c) && Target(c.op) == Some(k) && (c.op.Archive? || c.op.Restore?)
    ensures var t := Step(s, c);
            && (c.op.Archive? ==> k in s.active && k !in t.active && k in t.archive && t.archive[k] == s.active[k])
            && (c.op.Restore? ==> k in s.archive && k !in t.archive && k in t.active && t.active[k] == s.archive[k])
  {}

  ghost predicate Archives(s: Scope, c: Call, k: Key) { c.op.Archive? && Target(c.op) == Some(k) && Succeeds(s, c) }

  /** A restore or a purge of an archived entry. */
  ghost predicate TakesOut(s: Scope, c: Call, k: Key) {
    || (c.op.Restore? && Target(c.op) == Some(k) && Succeeds(s, c))
    || (c.op.Purge? && k in Purged(s, c.op.stale))
  }

  /** The last call of a run that archived `k`, unless it was taken out since. */
  ghost function LastArchived(s: Scope, calls: seq<Call>, k: Key): (i: Option<nat>)
    ensures i.Some? ==> i.value < |calls|
  {
    if calls == [] then None
    else
      var n := |calls| - 1;
      var before := ExecFrom(s, calls[..n]);
      if Archives(before, calls[n], k) then Some(n)
      else if TakesOut(before, calls[n], k) then None
      else LastArchived(s, calls[..n], k)
  }

  lemma OtherCallsKeepArchived(s: Scope, c: Call, k: Key)
    requires !Archives(s, c, k) && !TakesOut(s, c, k)
    ensures k in Step(s, c).archive <==> k in s.archive
    ensures k in s.archive ==> Step(s, c).archive[k] == s.archive[k]
  {
    if Target(c.op) != Some(k) && !c.op.Purge? {
      TouchesOnlyItsEntry(s, c, k);
    }
  }

  lemma TakenOutIsGone(s: Scope, c: Call, k: Key)
    requires TakesOut(s, c, k)
    ensures k !in Step(s, c).archive
  {}

  /** In every run the archive holds exactly what was archived and neither restored nor purged since,
      with the body it had when it was last archived. */
  lemma {:induction false} ArchiveHoldsTheLast(s: Scope, calls: seq<Call>, k: Key)
    ensures var t, last := ExecFrom(s, calls), LastArchived(s, calls, k);
            && (k !in s.archive ==> (k in t.archive <==> last.Some?))
            && (last.Some? ==>
                  var was := ExecFrom(s, calls[..last.value]);
                  k in t.archive && k in was.active && t.archive[k] == was.active[k])
  {
    if calls == [] {
    } else {
      var n := |calls| - 1;
      var before, c := ExecFrom(s, calls[..n]), calls[n];
      if Archives(before, c, k) {
        MovesKeepTheBody(before, c, k);
      } else if TakesOut(before, c, k) {
        TakenOutIsGone(before, c, k);
      } else {
        ArchiveHoldsTheLast(s, calls[..n], k);
        OtherCallsKeepArchived(before, c, k);
        assert forall i: nat :: i < n ==> calls[..n][..i] == calls[..i];
      }
    }
  }

  ghost predicate NoCreate(mid: seq<Call>, k: Key) {
    forall i :: 0 <= i < |mid| ==> !(mid[i].op.Create? && Target(mid[i].op) == Some(k))
  }

  /** Between an archive and a restore of `k`: no other restore, no purge of it, and it is not
      created and archived anew. */
  ghost predicate Undisturbed(mid: seq<Call>, k: Key) {
    && (forall i :: 0 <= i < |mid| ==> !(mid[i].op.Restore? && Target(mid[i].op) == Some(k)))
    && (forall i :: 0 <= i < |mid| ==> !(mid[i].op.Purge? && k in mid[i].op.stale))
    && (NoCreate(mid, k) || forall i :: 0 <= i < |mid| ==> !(mid[i].op.Archive? && Target(mid[i].op) == Some(k)))
  }

  lemma {:induction false} StaysInactive(s: Scope, mid: seq<Call>, k: Key)
    requires k !in s.active && NoCreate(mid, k)
    requires forall i :: 0 <= i < |mid| ==> !(mid[i].op.Restore? && Target(mid[i].op) == Some(k))
    ensures k !in ExecFrom(s, mid).active
  {
    if mid == [] {
    } else {
      var n := |mid| - 1;
      StaysInactive(s, mid[..n], k);
      if Target(mid[n].op) != Some(k) {
        TouchesOnlyItsEntry(ExecFrom(s, mid[..n]), mid[n], k);
      }
    }
  }

  lemma {:induction false} ExecFromCons(s: Scope, c: Call, calls: seq<Call>)
    ensures ExecFrom(s, [c] + calls) == ExecFrom(Step(s, c), calls)
  {
    if calls == [] {
      assert [c] + calls == [c] && [c][..0] == [];
    } else {
      assert ([c] + calls)[..|calls|] == [c] + calls[..|calls| - 1];
      ExecFromCons(s, c, calls[..|calls| - 1]);
    }
  }

  lemma UndisturbedPrefix(mid: seq<Call>, n: nat, k: Key)
    requires Undisturbed(mid, k) && n <= |mid|
    ensures Undisturbed(mid[..n], k) && (NoCreate(mid, k) ==> NoCreate(mid[..n], k))
  {}

  lemma UndisturbedCall(s: Scope, mid: seq<Call>, k: Key)
    requires k !in s.active && mid != [] && Undisturbed(mid, k)
    ensures var before, c := ExecFrom(s, mid[..|mid| - 1]), mid[|mid| - 1];
            !Archives(before, c, k) && !TakesOut(before, c, k)
  {
    if NoCreate(mid, k) {
      StaysInactive(s, mid[..|mid| - 1], k);
    }
  }

  lemma {:induction false} UndisturbedIsLast(s: Scope, archiving: Call, mid: seq<Call>, k: Key)
    requires Archives(s, archiving, k) && Undisturbed(mid, k)
    ensures LastArchived(s, [archiving] + mid, k) == Some(0)
  {
    var calls := [archiving] + mid;
    if mid == [] {
      assert calls == [archiving] && calls[..0] == [];
    } else {
      var n := |mid| - 1;
      assert calls[..n + 1] == [archiving] + mid[..n] && calls[n + 1] == mid[n];
      UndisturbedPrefix(mid, n, k);
      UndisturbedIsLast(s, archiving, mid[..n], k);
      ExecFromCons(s, archiving, mid[..n]);
      MovesKeepTheBody(s, archiving, k);
      UndisturbedCall(Step(s, archiving), mid, k);
    }
  }

  lemma UndisturbedIsHeld(s: Scope, archiving: Call, mid: seq<Call>, k: Key)
    requires Archives(s, archiving, k) && Undisturbed(mid, k)
    ensures var t := ExecFrom(Step(s, archiving), mid);
            k in s.active && k in t.archive && t.archive[k] == s.active[k]
  {
    var calls := [archiving] + mid;
    UndisturbedIsLast(s, archiving, mid, k);
    ArchiveHoldsTheLast(s, calls, k);
    assert calls[..0] == [];
    ExecFromCons(s, archiving, mid);
  }

  /** Archive then restore gives the same active body back, whatever happens in between to other
      entries, and even over an entry created under the name meanwhile, which is lost. */
  lemma RestoreUndoesArchive(s: Scope, archiving: Call, mid: seq<Call>, restoring: Call, k: Key)
    requires archiving.op.Archive? && restoring.op.Restore?
    requires Target(archiving.op) == Some(k) && Target(restoring.op) == Some(k)
    requires Succeeds(s, archiving) && Undisturbed(mid, k)
    requires restoring.writable && !Blocked(ExecFrom(Step(s, archiving), mid), k.topic)
    ensures var t := ExecFrom(Step(s, archiving), mid);
            && Succeeds(t, restoring)
            && k in Step(t, restoring).active && Step(t, restoring).active[k] == s.active[k]
            && k !in Step(t, restoring).archive
  {
    assert Archives(s, archiving, k);
    UndisturbedIsHeld(s, archiving, mid, k);
    MovesKeepTheBody(ExecFrom(Step(s, archiving), mid), restoring, k);
  }

  // ------------------------------------------------------------------ the audit trail

  ghost predicate MakesRecord(s: Scope, c: Call) { Succeeds(s, c) && Entry(c.op).Some? }

  /** The records of the successful moves of a run. */
  ghost function Moves(letters: Letters, calls: seq<Call>): seq<AuditLog.Record> {
    if calls == [] then []
    else
      var before, c := calls[..|calls| - 1], calls[|calls| - 1];
      Moves(letters, before) + if MakesRecord(Exec(letters, before), c) then [Entry(c.op).value] else []
  }

  /** The records written to LOG.md: those of the moves after which no topic is called LOG.md. */
  ghost function LoggedMoves(letters: Letters, calls: seq<Call>): seq<AuditLog.Record> {
    if calls == [] then []
    else
      var before, c := calls[..|calls| - 1], calls[|calls| - 1];
      LoggedMoves(letters, before) +
        if MakesRecord(Exec(letters, before), c) && !HasTopic(Exec(letters, calls).active, LOG_FILE)
        then [Entry(c.op).value] else []
  }

  /** After no successful move of the run did a topic LOG.md stand. */
  ghost predicate MovesLogged(letters: Letters, calls: seq<Call>) {
    calls == [] ||
    var before, c := calls[..|calls| - 1], calls[|calls| - 1];
    MovesLogged(letters, before) &&
      (MakesRecord(Exec(letters, before), c) ==> !HasTopic(Exec(letters, calls).active, LOG_FILE))
  }

  lemma OthersLogNothing(s: Scope, c: Call)
    requires !MakesRecord(s, c)
    ensures Step(s, c).log == s.log
  {}

  lemma LoggedText(t: Scope, r: AuditLog.Record)
    ensures LogText(Logged(Reindexed(t), r)) ==
              if HasTopic(t.active, LOG_FILE) then LogText(t) else LogText(t) + AuditLog.Terminated(AuditLog.LinesOf(r))
    ensures Logged(Reindexed(t), r).active == t.active
  {}

  lemma ArchiveLogs(s: Scope, c: Call, k: Key)
    requires c.op.Archive? && Target(c.op) == Some(k) && Succeeds(s, c) && Entry(c.op).Some?
    ensures LogText(Step(s, c)) ==
              if HasTopic(Step(s, c).active, LOG_FILE) then LogText(s)
              else LogText(s) + AuditLog.Terminated(AuditLog.LinesOf(Entry(c.op).value))
  {
    LoggedText(s.(active := s.active - {k}, archive := s.archive[k := s.active[k]]), Entry(c.op).value);
  }

  lemma RestoreLogs(s: Scope, c: Call, k: Key)
    requires c.op.Restore? && Target(c.op) == Some(k) && Succeeds(s, c) && Entry(c.op).Some?
    ensures LogText(Step(s, c)) ==
              if HasTopic(Step(s, c).active, LOG_FILE) then LogText(s)
              else LogText(s) + AuditLog.Terminated(AuditLog.LinesOf(Entry(c.op).value))
  {
    LoggedText(s.(active := s.active[k := s.archive[k]], archive := s.archive - {k}), Entry(c.op).value);
  }

  lemma MoveLogs(s: Scope, c: Call)
    requires MakesRecord(s, c)
    ensures LogText(Step(s, c)) ==
              if HasTopic(Step(s, c).active, LOG_FILE) then LogText(s)
              else LogText(s) + AuditLog.Terminated(AuditLog.LinesOf(Entry(c.op).value))
  {
    OnlyMovesAreRecorded(c.op);
    if c.op.Archive? {
      ArchiveLogs(s, c, Target(c.op).value);
    } else {
      RestoreLogs(s, c, Target(c.op).value);
    }
  }

  lemma StepLogs(s: Scope, c: Call)
    ensures LogText(Step(s, c)) ==
              if MakesRecord(s, c) && !HasTopic(Step(s, c).active, LOG_FILE)
              then LogText(s) + AuditLog.Terminated(AuditLog.LinesOf(Entry(c.op).value)) else LogText(s)
  {
    if MakesRecord(s, c) {
      MoveLogs(s, c);
    } else {
      OthersLogNothing(s, c);
    }
  }

  /** In every run LOG.md is the log of those records. */
  lemma {:induction false} LogIsTheLoggedMoves(letters: Letters, calls: seq<Call>)
    ensures LogText(Exec(letters, calls)) == AuditLog.Log(LoggedMoves(letters, calls))
  {
    if calls == [] {
    } else {
      var before, c := calls[..|calls| - 1], calls[|calls| - 1];
      var t, logged := Exec(letters, before), LoggedMoves(letters, before);
      LogIsTheLoggedMoves(letters, before);
      StepLogs(t, c);
      if MakesRecord(t, c) && !HasTopic(Exec(letters, calls).active, LOG_FILE) {
        AuditLog.LogSnoc(logged, Entry(c.op).value);
      } else {
        assert LoggedMoves(letters, calls) == logged;
      }
    }
  }

  lemma LogGrows(records: seq<AuditLog.Record>, r: AuditLog.Record)
    ensures |AuditLog.Log(records + [r])| == |AuditLog.Log(records)| + |AuditLog.Terminated(AuditLog.LinesOf(r))|
    ensures |AuditLog.Terminated(AuditLog.LinesOf(r))| > 0
  {
    AuditLog.LogSnoc(records, r);
  }

  /** Either every move was logged, or fewer records and less text were. */
  lemma {:induction false} LoggedMovesAreMoves(letters: Letters, calls: seq<Call>)
    ensures var logged, moves := LoggedMoves(letters, calls), Moves(letters, calls);
            && (forall r :: r in logged ==> r in moves)
            && (MovesLogged(letters, calls) ==> logged == moves)
            && (!MovesLogged(letters, calls) ==>
                  |logged| < |moves| && |AuditLog.Log(logged)| < |AuditLog.Log(moves)|)
  {
    if calls == [] {
    } else {
      var before, c := calls[..|calls| - 1], calls[|calls| - 1];
      LoggedMovesAreMoves(letters, before);
      var logged, moves := LoggedMoves(letters, before), Moves(letters, before);
      if MakesRecord(Exec(letters, before), c) {
        var r := Entry(c.op).value;
        assert Moves(letters, calls) == moves + [r];
        LogGrows(moves, r);
        LogGrows(logged, r);
        if HasTopic(Exec(letters, calls).active, LOG_FILE) {
          assert LoggedMoves(letters, calls) == logged;
        } else {
          assert LoggedMoves(letters, calls) == logged + [r];
        }
      } else {
        assert Moves(letters, calls) == moves && LoggedMoves(letters, calls) == logged;
      }
    }
  }

  /** LOG.md holds a record of every move of the run, in order, and nothing else, exactly when no
      topic was called LOG.md after any of them. */
  lemma LogIsTheMovesIff(letters: Letters, calls: seq<Call>)
    ensures LogText(Exec(letters, calls)) == AuditLog.Log(Moves(letters, calls)) <==> MovesLogged(letters, calls)
  {
    LogIsTheLoggedMoves(letters, calls);
    LoggedMovesAreMoves(letters, calls);
  }

  ghost predicate NeverALogTopic(calls: seq<Call>) {
    forall i :: 0 <= i < |calls| && calls[i].op.Create? && Target(calls[i].op).Some? ==>
      Target(calls[i].op).value.topic != LOG_FILE
  }

  lemma NoTopicFromNowhere(s: Scope, c: Call, topic: string)
    requires forall k :: k in s.active || k in s.archive ==> k.topic != topic
    requires c.op.Create? && Target(c.op).Some? ==> Target(c.op).value.topic != topic
    ensures forall k :: k in Step(s, c).active || k in Step(s, c).archive ==> k.topic != topic
  {}

  /** In particular when nobody asks for such a topic. */
  lemma {:induction false} LogIsTheMoves(letters: Letters, calls: seq<Call>)
    requires NeverALogTopic(calls)
    ensures MovesLogged(letters, calls) && LogText(Exec(letters, calls)) == AuditLog.Log(Moves(letters, calls))
    ensures forall k :: k in Exec(letters, calls).active || k in Exec(letters, calls).archive ==> k.topic != LOG_FILE
  {
    if calls == [] {
    } else {
      var before, c := calls[..|calls| - 1], calls[|calls| - 1];
      LogIsTheMoves(letters, before);
      NoTopicFromNowhere(Exec(letters, before), c, LOG_FILE);
      LogIsTheMovesIff(letters, calls);
    }
  }

  lemma LogFileIsClean()
    ensures Sanitize(LOG_FILE) == Some(LOG_FILE)
  {
    CleanIsKept(LOG_FILE);
  }

  lemma FirstCreate(letters: Letters, c: Call, k: Key)
    requires c.writable && c.op.Create? && Target(c.op) == Some(k)
    ensures var s := Exec(letters, [c]); s.log == None && HasTopic(s.active, k.topic)
  {
    ExecFromCons(Fresh(letters), c, []);
    assert [c] + [] == [c];
    var s := Exec(letters, [c]);
    assert k in s.active;
  }

  /** A topic can be called LOG.md where nothing was logged yet, */
  lemma LogTopicCanBeMade(letters: Letters, c: Call)
    requires c.writable && c.op.Create? && c.op.topic == LOG_FILE && Sanitize(c.op.entry).Some?
    ensures var s := Exec(letters, [c]); s.log == None && HasTopic(s.active, LOG_FILE)
  {
    LogFileIsClean();
    FirstCreate(letters, c, Key(Sanitize(c.op.topic).value, EnsureMd(Sanitize(c.op.entry).value)));
  }

  /** and while an entry of it stands, no call on another entry is logged; */
  lemma LogTopicSilencesTheLog(s: Scope, c: Call, k: Key)
    requires k in s.active && k.topic == LOG_FILE && Target(c.op) != Some(k)
    ensures Step(s, c).log == s.log
  {
    TouchesOnlyItsEntry(s, c, k);
    assert HasTopic(Step(s, c).active, LOG_FILE);
  }

  /** but only there: once anything was logged there is no such topic and never will be. */
  lemma LogTopicOnlyFirst(letters: Letters, calls: seq<Call>, c: Call)
    requires Exec(letters, calls).log.Some?
    ensures !HasTopic(Exec(letters, calls).active, LOG_FILE)
    ensures Exec(letters, calls + [c]).log.Some? && !HasTopic(Exec(letters, calls + [c]).active, LOG_FILE)
  {
    RunKeepsIndex(letters, calls);
    RunKeepsIndex(letters, calls + [c]);
    assert (calls + [c])[..|calls|] == calls;
    LogStays(Exec(letters, calls), c);
  }

  /** A move whose record is one line: no newline in the topic as given, the file, or the reason. */
  predicate PlainMove(op: Op) {
    match op
    case Archive(topic, _, reason, _) =>
      Target(op).Some? && '\n' !in topic && '\n' !in Target(op).value.file && '\n' !in reason
    case Restore(topic, _, _) => Target(op).Some? && '\n' !in topic && '\n' !in Target(op).value.file
    case _ => true
  }

  ghost predicate PlainMoves(letters: Letters, calls: seq<Call>) {
    calls == [] ||
    var before, c := calls[..|calls| - 1], calls[|calls| - 1];
    PlainMoves(letters, before) && (Succeeds(Exec(letters, before), c) ==> PlainMove(c.op))
  }

  /** Timestamps as the clock prints them: one line, not empty, without a dash of that length. */
  predicate CleanTime(op: Op) {
    op.Archive? || op.Restore? ==> op.now != "" && '\n' !in op.now && '\U{2014}' !in op.now
  }

  lemma OneDetail(timestamp: string, action: string, detail: string)
    ensures AuditLog.OneLineDetails(AuditLog.Record(timestamp, action, [detail])) <==> '\n' !in detail
  {
    var r := AuditLog.Record(timestamp, action, [detail]);
    assert AuditLog.OneLineDetails(r) ==> '\n' !in r.details[0];
  }

  lemma ArchivedDetail(topic: string, file: string, reason: string)
    ensures var detail := "Archived " + topic + "/" + file + if reason == "" then "" else " (reason: " + reason + ")";
            '\n' in detail <==> '\n' in topic || '\n' in file || '\n' in reason
  {}

  lemma RestoredDetail(topic: string, file: string)
    ensures '\n' in "Restored " + topic + "/" + file <==> '\n' in topic || '\n' in file
  {}

  lemma EntryIsOneLineIff(op: Op)
    requires Entry(op).Some? && CleanTime(op)
    ensures AuditLog.OneLineDetails(Entry(op).value) <==> PlainMove(op)
    ensures AuditLog.CleanHeader(Entry(op).value)
  {
    var file, r := Target(op).value.file, Entry(op).value;
    OneDetail(op.now, r.action, r.details[0]);
    if op.Archive? {
      ArchivedDetail(op.topic, file, op.reason);
    } else {
      RestoredDetail(op.topic, file);
    }
  }

  lemma OneLineSnoc(records: seq<AuditLog.Record>, r: AuditLog.Record)
    ensures AuditLog.AllOneLine(records + [r]) <==> AuditLog.AllOneLine(records) && AuditLog.OneLineDetails(r)
  {
    var all := records + [r];
    assert all[|records|] == r;
    assert forall i :: 0 <= i < |records| ==> all[i] == records[i];
  }

  lemma {:induction false} MovesAreOneLineIff(letters: Letters, calls: seq<Call>)
    requires forall i :: 0 <= i < |calls| ==> CleanTime(calls[i].op)
    ensures AuditLog.AllOneLine(Moves(letters, calls)) <==> PlainMoves(letters, calls)
    ensures forall i :: 0 <= i < |Moves(letters, calls)| ==> AuditLog.CleanHeader(Moves(letters, calls)[i])
  {
    if calls == [] {
    } else {
      var before, c := calls[..|calls| - 1], calls[|calls| - 1];
      MovesAreOneLineIff(letters, before);
      var moves := Moves(letters, before);
      if Succeeds(Exec(letters, before), c) && Entry(c.op).Some? {
        EntryIsOneLineIff(c.op);
        OneLineSnoc(moves, Entry(c.op).value);
        assert Moves(letters, calls) == moves + [Entry(c.op).value];
      } else {
        assert Moves(letters, calls) == moves;
      }
    }
  }

  lemma LoggedAreOneLine(letters: Letters, calls: seq<Call>)
    requires AuditLog.AllOneLine(Moves(letters, calls))
    ensures AuditLog.AllOneLine(LoggedMoves(letters, calls))
  {
    var logged := LoggedMoves(letters, calls);
    LoggedMovesAreMoves(letters, calls);
    forall i | 0 <= i < |logged| ensures AuditLog.OneLineDetails(logged[i]) {
      assert logged[i] in Moves(letters, calls);
    }
  }

  /** A move that was not logged is missed by the reader, whatever the other records hold. */
  lemma UnloggedIsMissed(letters: Letters, calls: seq<Call>)
    requires !MovesLogged(letters, calls) && forall i :: 0 <= i < |calls| ==> CleanTime(calls[i].op)
    ensures AuditLog.Parse(LogText(Exec(letters, calls))) != Moves(letters, calls)
  {
    var logged, moves := LoggedMoves(letters, calls), Moves(letters, calls);
    LogIsTheLoggedMoves(letters, calls);
    LoggedMovesAreMoves(letters, calls);
    AuditLog.ParsedIsOneLine(AuditLog.Log(logged));
    if AuditLog.Parse(AuditLog.Log(logged)) == moves {
      LoggedAreOneLine(letters, calls);
      MovesAreOneLineIff(letters, calls);
      forall i | 0 <= i < |logged| ensures AuditLog.CleanHeader(logged[i]) {
        assert logged[i] in moves;
      }
      AuditLog.LogRoundTripIff(logged);
      assert false;
    }
  }

  /** Reading LOG.md gives the successful moves of the run, newest first and at most `limit` of them,
      and all of them exactly when each was logged and no moved topic, file or reason holds a
      newline. */
  lemma LogReadsTheMovesIff(letters: Letters, calls: seq<Call>, limit: int)
    requires forall i :: 0 <= i < |calls| ==> CleanTime(calls[i].op)
    ensures AuditLog.Parse(LogText(Exec(letters, calls))) == Moves(letters, calls)
       <==> MovesLogged(letters, calls) && PlainMoves(letters, calls)
    ensures MovesLogged(letters, calls) && PlainMoves(letters, calls) ==>
              AuditLog.Newest(AuditLog.Parse(LogText(Exec(letters, calls))), limit) ==
              AuditLog.Newest(Moves(letters, calls), limit)
  {
    if MovesLogged(letters, calls) {
      LogIsTheMovesIff(letters, calls);
      MovesAreOneLineIff(letters, calls);
      AuditLog.LogRoundTripIff(Moves(letters, calls));
    } else {
      UnloggedIsMissed(letters, calls);
    }
  }
}
