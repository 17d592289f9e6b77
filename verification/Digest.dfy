/** The budgeted memory digest (digest/digest.go). */
module Digest {
  import opened Text

  const CHARS_PER_TOKEN := 4
  const DEFAULT_MINIMUM := 5

  /** A scope with its guaranteed minimum and the non-blank lines of its INDEX.md. */
  datatype Scoped = Scoped(scope: string, id: string, minimum: nat, lines: seq<string>)

  function Guaranteed(e: Scoped): seq<string> {
    if |e.lines| > e.minimum then e.lines[..e.minimum] else e.lines
  }

  function Beyond(e: Scoped): seq<string> { e.lines[|Guaranteed(e)|..] }

  /** What a list of lines counts against the budget: its bytes and one newline each. */
  function Cost(lines: seq<string>): nat {
    if lines == [] then 0 else Bytes(lines[0]) + 1 + Cost(lines[1..])
  }

  function TotalCost(taken: seq<seq<string>>): nat {
    if taken == [] then 0 else Cost(taken[0]) + TotalCost(taken[1..])
  }

  function GuaranteedAll(entries: seq<Scoped>): seq<seq<string>> {
    if entries == [] then [] else [Guaranteed(entries[0])] + GuaranteedAll(entries[1..])
  }

  datatype Tagged = Tagged(idx: nat, line: string)

  function Tag(idx: nat, lines: seq<string>): seq<Tagged> {
    seq(|lines|, k requires 0 <= k < |lines| => Tagged(idx, lines[k]))
  }

  /** All lines beyond the guarantees, in scope order, each with its scope's position. */
  function Overflow(entries: seq<Scoped>): seq<Tagged> {
    if entries == [] then []
    else Overflow(entries[..|entries| - 1]) + Tag(|entries| - 1, Beyond(entries[|entries| - 1]))
  }

  function Lines(tagged: seq<Tagged>): seq<string> {
    seq(|tagged|, k requires 0 <= k < |tagged| => tagged[k].line)
  }

  /** The lines of one scope among tagged lines. */
  function Select(tagged: seq<Tagged>, idx: nat): seq<string> {
    if tagged == [] then []
    else Select(tagged[..|tagged| - 1], idx) +
         (if tagged[|tagged| - 1].idx == idx then [tagged[|tagged| - 1].line] else [])
  }

  // ------------------------------------------------------------------ lemmas on costs and selections

  lemma {:induction false} CostAppend(a: seq<string>, b: seq<string>)
    ensures Cost(a + b) == Cost(a) + Cost(b)
  {
    if a == [] {
      assert a + b == b;
    } else {
      assert (a + b)[1..] == a[1..] + b;
      CostAppend(a[1..], b);
    }
  }

  lemma {:induction false} TotalCostSnoc(taken: seq<seq<string>>, lines: seq<string>)
    ensures TotalCost(taken + [lines]) == TotalCost(taken) + Cost(lines)
  {
    if taken == [] {
      assert taken + [lines] == [lines];
    } else {
      assert (taken + [lines])[1..] == taken[1..] + [lines];
      TotalCostSnoc(taken[1..], lines);
    }
  }

  lemma {:induction false} TotalCostUpdate(taken: seq<seq<string>>, i: nat, line: string)
    requires i < |taken|
    ensures TotalCost(taken[i := taken[i] + [line]]) == TotalCost(taken) + Bytes(line) + 1
  {
    if i == 0 {
      CostAppend(taken[0], [line]);
      assert Cost([line]) == Bytes(line) + 1 + Cost([]);
    } else {
      assert taken[i := taken[i] + [line]][1..] == taken[1..][i - 1 := taken[1..][i - 1] + [line]];
      TotalCostUpdate(taken[1..], i - 1, line);
    }
  }

  lemma {:induction false} SelectAppend(a: seq<Tagged>, b: seq<Tagged>, idx: nat)
    ensures Select(a + b, idx) == Select(a, idx) + Select(b, idx)
  {
    if b == [] {
      assert a + b == a;
    } else {
      assert (a + b)[..|a + b| - 1] == a + b[..|b| - 1];
      SelectAppend(a, b[..|b| - 1], idx);
    }
  }

  lemma {:induction false} SelectTag(k: nat, lines: seq<string>, idx: nat)
    ensures Select(Tag(k, lines), idx) == if k == idx then lines else []
  {
    if lines == [] {
    } else {
      var n := |lines| - 1;
      assert Tag(k, lines)[..n] == Tag(k, lines[..n]);
      SelectTag(k, lines[..n], idx);
      assert lines == lines[..n] + [lines[n]];
    }
  }

  lemma OverflowSnoc(entries: seq<Scoped>, e: Scoped)
    ensures Overflow(entries + [e]) == Overflow(entries) + Tag(|entries|, Beyond(e))
  {
    var all := entries + [e];
    assert all[..|all| - 1] == entries && all[|all| - 1] == e;
  }

  lemma {:induction false} SelectOverflow(entries: seq<Scoped>, idx: nat)
    ensures Select(Overflow(entries), idx) == if idx < |entries| then Beyond(entries[idx]) else []
  {
    if entries == [] {
    } else {
      var n := |entries| - 1;
      var before, last := entries[..n], entries[n];
      assert entries == before + [last];
      OverflowSnoc(before, last);
      SelectOverflow(before, idx);
      SelectAppend(Overflow(before), Tag(n, Beyond(last)), idx);
      SelectTag(n, Beyond(last), idx);
      if idx < n {
        assert entries[idx] == before[idx];
      }
    }
  }

  lemma {:induction false} TagsArePositions(entries: seq<Scoped>, k: nat)
    requires k < |Overflow(entries)|
    ensures Overflow(entries)[k].idx < |entries|
  {
    if entries == [] {
    } else {
      var n := |entries| - 1;
      if k < |Overflow(entries[..n])| {
        TagsArePositions(entries[..n], k);
      }
    }
  }

  lemma {:induction false} OverflowIsEmptyIff(entries: seq<Scoped>)
    ensures Overflow(entries) == [] <==> forall i :: 0 <= i < |entries| ==> Beyond(entries[i]) == []
  {
    if entries == [] {
    } else {
      var n := |entries| - 1;
      var before := entries[..n];
      OverflowIsEmptyIff(before);
      assert entries == before + [entries[n]];
      OverflowSnoc(before, entries[n]);
      assert |Tag(n, Beyond(entries[n]))| == |Beyond(entries[n])|;
    }
  }

  lemma OverflowTags(entries: seq<Scoped>)
    ensures forall k :: 0 <= k < |Overflow(entries)| ==> Overflow(entries)[k].idx < |entries|
    ensures Overflow(entries) != [] <==> exists i :: 0 <= i < |entries| && Beyond(entries[i]) != []
  {
    forall k | 0 <= k < |Overflow(entries)| ensures Overflow(entries)[k].idx < |entries| {
      TagsArePositions(entries, k);
    }
    OverflowIsEmptyIff(entries);
  }

  // ------------------------------------------------------------------ the two phases

  /** Which lines a budget buys: every guarantee, then the longest prefix of the overflow, taken
      in scope order, that fits what the guarantees left. */
  ghost predicate Buys(entries: seq<Scoped>, charBudget: int, extra: nat) {
    var overflow := Overflow(entries);
    var left := charBudget - TotalCost(GuaranteedAll(entries));
    && extra <= |overflow|
    && (extra > 0 ==> Cost(Lines(overflow[..extra])) <= left)
    && (extra < |overflow| ==> Cost(Lines(overflow[..extra + 1])) > left)
  }

  ghost predicate Shows(entries: seq<Scoped>, extra: nat, taken: seq<seq<string>>)
    requires extra <= |Overflow(entries)|
  {
    && |taken| == |entries|
    && forall i :: 0 <= i < |entries| ==> taken[i] == Guaranteed(entries[i]) + Select(Overflow(entries)[..extra], i)
  }

  lemma LinesSnoc(overflow: seq<Tagged>, k: nat)
    requires k < |overflow|
    ensures Cost(Lines(overflow[..k + 1])) == Cost(Lines(overflow[..k])) + Bytes(overflow[k].line) + 1
  {
    assert Lines(overflow[..k + 1]) == Lines(overflow[..k]) + [overflow[k].line];
    CostAppend(Lines(overflow[..k]), [overflow[k].line]);
    assert Cost([overflow[k].line]) == Bytes(overflow[k].line) + 1 + Cost([]);
  }

  lemma GuaranteedAllSnoc(entries: seq<Scoped>, e: Scoped)
    ensures GuaranteedAll(entries + [e]) == GuaranteedAll(entries) + [Guaranteed(e)]
  {
    if entries == [] {
      assert entries + [e] == [e];
    } else {
      assert (entries + [e])[1..] == entries[1..] + [e];
      GuaranteedAllSnoc(entries[1..], e);
    }
  }

  lemma {:induction false} GuaranteedAllAt(entries: seq<Scoped>)
    ensures |GuaranteedAll(entries)| == |entries|
    ensures forall i :: 0 <= i < |entries| ==> GuaranteedAll(entries)[i] == Guaranteed(entries[i])
  {
    if entries == [] {
    } else {
      GuaranteedAllAt(entries[1..]);
    }
  }

  lemma CostLines(lines: seq<string>, k: nat)
    requires k < |lines|
    ensures Cost(lines[..k + 1]) == Cost(lines[..k]) + Bytes(lines[k]) + 1
  {
    assert lines[..k + 1] == lines[..k] + [lines[k]];
    CostAppend(lines[..k], [lines[k]]);
    assert Cost([lines[k]]) == Bytes(lines[k]) + 1 + Cost([]);
  }

  /** The inner loop: each line of a scope with its newline. */
  method AddLines(take: seq<string>, before: nat) returns (charsUsed: nat)
    ensures charsUsed == before + Cost(take)
  {
    charsUsed := before;
    for k := 0 to |take|
      invariant charsUsed + k == before + Cost(take[..k])
    {
      CostLines(take, k);
      charsUsed := charsUsed + Bytes(take[k]);
    }
    charsUsed := charsUsed + |take|;
    assert take[..|take|] == take;
  }

  /** Phase 1: guarantee the per-scope minimums. */
  method Guarantee(entries: seq<Scoped>) returns (taken: seq<seq<string>>, charsUsed: nat, truncated: bool)
    ensures taken == GuaranteedAll(entries) && charsUsed == TotalCost(taken)
    ensures truncated <==> Overflow(entries) != []
    ensures truncated <==> exists i :: 0 <= i < |entries| && Beyond(entries[i]) != []
  {
    taken, charsUsed, truncated := [], 0, false;
    for i := 0 to |entries|
      invariant taken == GuaranteedAll(entries[..i]) && charsUsed == TotalCost(taken)
      invariant truncated <==> exists j :: 0 <= j < i && Beyond(entries[j]) != []
    {
      var take := entries[i].lines;
      if |take| > entries[i].minimum {
        take := take[..entries[i].minimum];
        truncated := true;
        assert Beyond(entries[i]) != [];
      }
      charsUsed := AddLines(take, charsUsed);
      TotalCostSnoc(taken, take);
      taken := taken + [take];
      assert entries[..i + 1] == entries[..i] + [entries[i]];
      GuaranteedAllSnoc(entries[..i], entries[i]);
    }
    assert entries[..|entries|] == entries;
    OverflowTags(entries);
  }

  lemma SelectNext(overflow: seq<Tagged>, k: nat, i: nat)
    requires k < |overflow|
    ensures Select(overflow[..k + 1], i) ==
              Select(overflow[..k], i) + if overflow[k].idx == i then [overflow[k].line] else []
  {
    assert overflow[..k + 1][..k] == overflow[..k];
  }

  lemma ShownNext(entries: seq<Scoped>, extra: nat, i: nat)
    requires extra < |Overflow(entries)| && i < |entries|
    ensures var overflow := Overflow(entries);
            Guaranteed(entries[i]) + Select(overflow[..extra + 1], i) ==
              Guaranteed(entries[i]) + Select(overflow[..extra], i) +
              if overflow[extra].idx == i then [overflow[extra].line] else []
  {
    SelectNext(Overflow(entries), extra, i);
  }

  lemma ShowsNext(entries: seq<Scoped>, extra: nat, taken: seq<seq<string>>)
    requires extra < |Overflow(entries)| && Shows(entries, extra, taken)
    ensures var o := Overflow(entries)[extra];
            o.idx < |taken| && Shows(entries, extra + 1, taken[o.idx := taken[o.idx] + [o.line]])
  {
    var overflow := Overflow(entries);
    var o := overflow[extra];
    TagsArePositions(entries, extra);
    var after := taken[o.idx := taken[o.idx] + [o.line]];
    forall i | 0 <= i < |entries| ensures after[i] == Guaranteed(entries[i]) + Select(overflow[..extra + 1], i) {
      ShownNext(entries, extra, i);
      assert i != o.idx ==> taken[i] + [] == taken[i];
    }
  }

  method CollectOverflow(entries: seq<Scoped>) returns (overflow: seq<Tagged>)
    ensures overflow == Overflow(entries)
  {
    overflow := [];
    for i := 0 to |entries|
      invariant overflow == Overflow(entries[..i])
    {
      assert entries[..i + 1][..i] == entries[..i];
      overflow := overflow + Tag(i, Beyond(entries[i]));
    }
    assert entries[..|entries|] == entries;
  }

  /** Phase 2: spend what remains on the overflow, in scope-priority order. */
  method Fill(entries: seq<Scoped>, guaranteed: seq<seq<string>>, budget: int)
    returns (taken: seq<seq<string>>, extra: nat, stopped: bool)
    requires budget > 0 && Shows(entries, 0, guaranteed)
    ensures extra <= |Overflow(entries)| && Shows(entries, extra, taken)
    ensures Cost(Lines(Overflow(entries)[..extra])) <= budget
    ensures extra < |Overflow(entries)| ==> Cost(Lines(Overflow(entries)[..extra + 1])) > budget
    ensures TotalCost(taken) == TotalCost(guaranteed) + Cost(Lines(Overflow(entries)[..extra]))
    ensures stopped <==> extra < |Overflow(entries)|
  {
    var overflow := CollectOverflow(entries);
    taken, extra, stopped := guaranteed, 0, false;
    var remaining := budget;
    while extra < |overflow|
      invariant extra <= |overflow| && remaining >= 0
      invariant remaining == budget - Cost(Lines(overflow[..extra]))
      invariant TotalCost(taken) == TotalCost(guaranteed) + budget - remaining
      invariant Shows(entries, extra, taken)
    {
      var o := overflow[extra];
      LinesSnoc(overflow, extra);
      if Bytes(o.line) + 1 > remaining {
        stopped := true;
        break;
      }
      ShowsNext(entries, extra, taken);
      TotalCostUpdate(taken, o.idx, o.line);
      taken := taken[o.idx := taken[o.idx] + [o.line]];
      remaining := remaining - (Bytes(o.line) + 1);
      extra := extra + 1;
    }
  }

  lemma ShowsGuaranteed(entries: seq<Scoped>)
    ensures Shows(entries, 0, GuaranteedAll(entries))
  {
    GuaranteedAllAt(entries);
  }

  /** When the guarantees use up the budget, no more is bought. */
  lemma BuysNothing(entries: seq<Scoped>, charBudget: int)
    requires charBudget <= TotalCost(GuaranteedAll(entries))
    ensures Buys(entries, charBudget, 0) && Lines(Overflow(entries)[..0]) == []
  {
    if Overflow(entries) != [] {
      LinesSnoc(Overflow(entries), 0);
    }
  }

  lemma FillBuys(entries: seq<Scoped>, charBudget: int, extra: nat)
    requires extra <= |Overflow(entries)|
    requires var left := charBudget - TotalCost(GuaranteedAll(entries));
             && Cost(Lines(Overflow(entries)[..extra])) <= left
             && (extra < |Overflow(entries)| ==> Cost(Lines(Overflow(entries)[..extra + 1])) > left)
    ensures Buys(entries, charBudget, extra)
  {}

  method Apportion(entries: seq<Scoped>, charBudget: int) returns (taken: seq<seq<string>>, truncated: bool, extra: nat)
    ensures Buys(entries, charBudget, extra) && Shows(entries, extra, taken)
    ensures truncated <==> Overflow(entries) != []
    ensures TotalCost(taken) == TotalCost(GuaranteedAll(entries)) + Cost(Lines(Overflow(entries)[..extra]))
  {
    var charsUsed;
    taken, charsUsed, truncated := Guarantee(entries);
    extra := 0;
    ShowsGuaranteed(entries);
    if charBudget - charsUsed > 0 {
      var stopped;
      taken, extra, stopped := Fill(entries, taken, charBudget - charsUsed);
      truncated := truncated || stopped;
      FillBuys(entries, charBudget, extra);
    } else {
      BuysNothing(entries, charBudget);
    }
  }

  // ------------------------------------------------------------------ what a reader of the digest sees

  lemma SelectSplits(entries: seq<Scoped>, extra: nat, i: nat)
    requires extra <= |Overflow(entries)| && i < |entries|
    ensures Select(Overflow(entries)[..extra], i) + Select(Overflow(entries)[extra..], i) == Beyond(entries[i])
  {
    var overflow := Overflow(entries);
    assert overflow == overflow[..extra] + overflow[extra..];
    SelectAppend(overflow[..extra], overflow[extra..], i);
    SelectOverflow(entries, i);
  }

  lemma GuaranteeSplits(e: Scoped, shown: seq<string>, hidden: seq<string>)
    requires shown + hidden == Beyond(e)
    ensures Guaranteed(e) + shown <= e.lines
    ensures |Guaranteed(e) + shown| >= e.minimum || Guaranteed(e) + shown == e.lines
    ensures hidden == [] <==> Guaranteed(e) + shown == e.lines
  {
    assert e.lines == Guaranteed(e) + Beyond(e);
    assert e.lines == (Guaranteed(e) + shown) + hidden;
  }

  /** Each scope shows a prefix of its lines, and never less than its guarantee. */
  lemma ShowsPrefixes(entries: seq<Scoped>, extra: nat, taken: seq<seq<string>>, i: nat)
    requires extra <= |Overflow(entries)| && Shows(entries, extra, taken) && i < |entries|
    ensures taken[i] <= entries[i].lines
    ensures |taken[i]| >= entries[i].minimum || taken[i] == entries[i].lines
  {
    SelectSplits(entries, extra, i);
    GuaranteeSplits(entries[i], Select(Overflow(entries)[..extra], i), Select(Overflow(entries)[extra..], i));
  }

  lemma SelectMember(tagged: seq<Tagged>, k: nat)
    requires k < |tagged|
    ensures Select(tagged, tagged[k].idx) != []
  {
    var n := |tagged| - 1;
    if k < n {
      SelectMember(tagged[..n], k);
    }
  }

  /** A scope shows all its lines when none of its overflow is held back. */
  lemma ShownIsAllIff(entries: seq<Scoped>, extra: nat, taken: seq<seq<string>>, i: nat)
    requires extra <= |Overflow(entries)| && Shows(entries, extra, taken) && i < |entries|
    ensures taken[i] == entries[i].lines <==> Select(Overflow(entries)[extra..], i) == []
  {
    SelectSplits(entries, extra, i);
    GuaranteeSplits(entries[i], Select(Overflow(entries)[..extra], i), Select(Overflow(entries)[extra..], i));
  }

  /** Some scope does not show all its lines. */
  ghost predicate Misses(entries: seq<Scoped>, taken: seq<seq<string>>) {
    |taken| == |entries| && exists i :: 0 <= i < |entries| && taken[i] != entries[i].lines
  }

  /** A scope misses a line exactly when the overflow was cut short, and then the notice is shown. */
  lemma DroppedIffCutShort(entries: seq<Scoped>, extra: nat, taken: seq<seq<string>>)
    requires extra <= |Overflow(entries)| && Shows(entries, extra, taken)
    ensures Misses(entries, taken) <==> extra < |Overflow(entries)|
    ensures Misses(entries, taken) ==> Overflow(entries) != []
  {
    var overflow := Overflow(entries);
    var hidden := overflow[extra..];
    if hidden == [] {
      forall i | 0 <= i < |entries| ensures taken[i] == entries[i].lines {
        ShownIsAllIff(entries, extra, taken, i);
      }
    } else {
      OverflowTags(entries);
      assert hidden[0] == overflow[extra];
      var i := overflow[extra].idx;
      SelectMember(hidden, 0);
      ShownIsAllIff(entries, extra, taken, i);
    }
  }

  lemma {:induction false} LongerCostsMore(overflow: seq<Tagged>, k: nat)
    requires k <= |overflow|
    ensures Cost(Lines(overflow[..k])) <= Cost(Lines(overflow))
    decreases |overflow| - k
  {
    if k == |overflow| {
      assert overflow[..k] == overflow;
    } else {
      LinesSnoc(overflow, k);
      LongerCostsMore(overflow, k + 1);
    }
  }

  /** The budget buys the whole overflow when there is none, or when it pays for every line. */
  lemma BuysAllIff(entries: seq<Scoped>, charBudget: int, extra: nat)
    requires Buys(entries, charBudget, extra)
    ensures extra == |Overflow(entries)| <==>
            Overflow(entries) == [] || TotalCost(GuaranteedAll(entries)) + Cost(Lines(Overflow(entries))) <= charBudget
  {
    var overflow := Overflow(entries);
    if extra < |overflow| {
      LongerCostsMore(overflow, extra + 1);
    } else {
      assert overflow[..extra] == overflow;
    }
  }

  /** The notice is right, that is, shown only when a line is missing, exactly when no scope exceeds
      its guarantee or all the lines together cost more than the budget. */
  lemma NoticeIsRightIff(entries: seq<Scoped>, charBudget: int, extra: nat, taken: seq<seq<string>>)
    requires Buys(entries, charBudget, extra) && Shows(entries, extra, taken)
    ensures (Overflow(entries) != [] ==> Misses(entries, taken)) <==>
            Overflow(entries) == [] || TotalCost(GuaranteedAll(entries)) + Cost(Lines(Overflow(entries))) > charBudget
  {
    DroppedIffCutShort(entries, extra, taken);
    BuysAllIff(entries, charBudget, extra);
  }

  /** The counted cost never passes the larger of the budget and the guarantees. */
  lemma CostWithinBudget(entries: seq<Scoped>, charBudget: int, extra: nat)
    requires Buys(entries, charBudget, extra)
    ensures var total := TotalCost(GuaranteedAll(entries)) + Cost(Lines(Overflow(entries)[..extra]));
            total <= charBudget || total == TotalCost(GuaranteedAll(entries))
  {
    assert extra == 0 ==> Lines(Overflow(entries)[..extra]) == [];
  }

  /** So for every set of scopes of which one exceeds its guarantee there is a budget that buys every
      line, and the notice is shown with nothing dropped. */
  lemma NoticeWithoutLoss(entries: seq<Scoped>, taken: seq<seq<string>>)
    requires Overflow(entries) != [] && Shows(entries, |Overflow(entries)|, taken)
    ensures Buys(entries, TotalCost(GuaranteedAll(entries)) + Cost(Lines(Overflow(entries))), |Overflow(entries)|)
    ensures !Misses(entries, taken)
  {
    var overflow := Overflow(entries);
    assert overflow[..|overflow|] == overflow;
    DroppedIffCutShort(entries, |overflow|, taken);
  }

  // ------------------------------------------------------------------ from index files to markdown

  /** A scope directory with the text of its INDEX.md; a zero minimum means the default one. */
  datatype ScopeDir = ScopeDir(scope: string, id: string, digestMinLines: nat, index: string)

  predicate IsBlank(line: string) { forall i :: 0 <= i < |line| ==> IsSpace(line[i]) }

  function NonBlank(lines: seq<string>): seq<string> {
    if lines == [] then []
    else if IsBlank(lines[0]) then NonBlank(lines[1..])
    else [lines[0]] + NonBlank(lines[1..])
  }

  function Entries(dirs: seq<ScopeDir>): (entries: seq<Scoped>)
    ensures forall i :: 0 <= i < |entries| ==> entries[i].lines != [] && entries[i].minimum > 0
  {
    if dirs == [] then []
    else
      var d := dirs[0];
      var lines := NonBlank(Split(d.index, '\n'));
      var minimum := if d.digestMinLines == 0 then DEFAULT_MINIMUM else d.digestMinLines;
      (if lines == [] then [] else [Scoped(d.scope, d.id, minimum, lines)]) + Entries(dirs[1..])
  }

  function Section(e: Scoped, taken: seq<string>): string {
    (if e.scope == "global" then "### global" else "### " + e.scope + " / " + e.id) + "\n" + Join(taken, "\n")
  }

  function Sections(entries: seq<Scoped>, taken: seq<seq<string>>): seq<string>
    requires |entries| == |taken|
  {
    if entries == [] then []
    else
      var n := |entries| - 1;
      Sections(entries[..n], taken[..n]) + [Section(entries[n], taken[n])]
  }

  const MORE := "_More memory exists \U{2014} " + "use memory_search " + "to find specific entries._"
  const NOTICE := "\n\n" + MORE

  function Render(entries: seq<Scoped>, taken: seq<seq<string>>, truncated: bool): string
    requires |entries| == |taken|
  {
    "\n\n## Memory\n\n" + Join(Sections(entries, taken), "\n\n") + (if truncated then NOTICE else "")
  }

  // ------------------------------------------------------------------ what a digest says

  /** The entries of a directory: the lines of its index with something on them, in order, with 5 lines
      guaranteed unless it says otherwise. */
  function EntryOf(d: ScopeDir): seq<Scoped> {
    var lines := FlatMap(Visible, Split(d.index, '\n'));
    if lines == [] then [] else [Scoped(d.scope, d.id, if d.digestMinLines == 0 then 5 else d.digestMinLines, lines)]
  }

  function Visible(line: string): seq<string> {
    if exists i :: 0 <= i < |line| && !IsSpace(line[i]) then [line] else []
  }

  lemma {:induction false} FlatMapHead<A, B>(f: A -> seq<B>, s: seq<A>)
    requires s != []
    ensures FlatMap(f, s) == f(s[0]) + FlatMap(f, s[1..])
  {
    FlatMapAppend(f, [s[0]], s[1..]);
    assert [s[0]] + s[1..] == s && [s[0]][..0] == [];
    assert FlatMap(f, []) + f(s[0]) == f(s[0]);
  }

  lemma {:induction false} NonBlankAreVisible(lines: seq<string>)
    ensures NonBlank(lines) == FlatMap(Visible, lines)
  {
    if lines == [] {
    } else {
      FlatMapHead(Visible, lines);
      NonBlankAreVisible(lines[1..]);
    }
  }

  lemma {:induction false} EntriesAreTheLines(dirs: seq<ScopeDir>)
    ensures Entries(dirs) == FlatMap(EntryOf, dirs)
  {
    if dirs == [] {
    } else {
      FlatMapHead(EntryOf, dirs);
      NonBlankAreVisible(Split(dirs[0].index, '\n'));
      EntriesAreTheLines(dirs[1..]);
    }
  }

  function HeadingOf(e: Scoped): string {
    if e.scope == "global" then "### global" else "### " + e.scope + " / " + e.id
  }

  /** The lines of the sections: a heading and the lines taken for each, an empty line between two. */
  function SectionLines(entries: seq<Scoped>, taken: seq<seq<string>>): seq<string>
    requires |entries| == |taken|
  {
    if entries == [] then []
    else
      var n := |entries| - 1;
      var last := [HeadingOf(entries[n])] + taken[n];
      if n == 0 then last else SectionLines(entries[..n], taken[..n]) + [""] + last
  }

  const HEAD := ["", "", "## Memory", ""]
  const FOOT := ["", MORE]

  function DigestLines(entries: seq<Scoped>, taken: seq<seq<string>>, truncated: bool): seq<string>
    requires |entries| == |taken|
  {
    HEAD + SectionLines(entries, taken) +
    if truncated then FOOT else []
  }

  lemma SectionIsLines(e: Scoped, taken: seq<string>)
    requires taken != []
    ensures Section(e, taken) == Join([HeadingOf(e)] + taken, "\n")
  {
    JoinAppend([HeadingOf(e)], taken, "\n");
  }

  lemma JoinSnoc(parts: seq<string>, x: string, sep: string)
    requires parts != []
    ensures Join(parts + [x], sep) == Join(parts, sep) + sep + x
  {
    JoinAppend(parts, [x], sep);
  }

  lemma {:induction false} SectionsAreLines(entries: seq<Scoped>, taken: seq<seq<string>>)
    requires |entries| == |taken| && entries != [] && forall i :: 0 <= i < |taken| ==> taken[i] != []
    ensures SectionLines(entries, taken) != []
    ensures Join(Sections(entries, taken), "\n\n") == Join(SectionLines(entries, taken), "\n")
  {
    var n := |entries| - 1;
    var last := [HeadingOf(entries[n])] + taken[n];
    SectionIsLines(entries[n], taken[n]);
    if n == 0 {
      assert Sections(entries, taken) == [Section(entries[0], taken[0])];
    } else {
      SectionsAreLines(entries[..n], taken[..n]);
      var before := SectionLines(entries[..n], taken[..n]);
      JoinSnoc(Sections(entries[..n], taken[..n]), Section(entries[n], taken[n]), "\n\n");
      JoinSnoc(before, "", "\n");
      JoinAppend(before + [""], last, "\n");
      assert Join(before, "\n") + "\n\n" + Join(last, "\n") == Join(before, "\n") + "\n" + "" + "\n" + Join(last, "\n");
    }
  }

  lemma HeadIsLines()
    ensures Join(HEAD, "\n") == "\n\n## Memory\n"
  {
    assert HEAD[1..] == ["", "## Memory", ""] && HEAD[1..][1..] == ["## Memory", ""] && HEAD[1..][1..][1..] == [""];
    assert Join(["## Memory", ""], "\n") == "## Memory" + "\n" + "";
    assert Join(["", "## Memory", ""], "\n") == "" + "\n" + "## Memory\n";
    assert Join(HEAD, "\n") == "" + "\n" + "\n## Memory\n";
  }

  lemma NoticeIsLines()
    ensures "\n" + Join(FOOT, "\n") == NOTICE
  {
    assert FOOT[1..] == [MORE];
    assert Join(FOOT, "\n") == "" + "\n" + MORE;
  }

  lemma BelowHead(body: seq<string>)
    requires body != []
    ensures Join(HEAD + body, "\n") == "\n\n## Memory\n\n" + Join(body, "\n")
  {
    HeadIsLines();
    JoinAppend(HEAD, body, "\n");
    assert "\n\n## Memory\n" + "\n" + Join(body, "\n") == "\n\n## Memory\n\n" + Join(body, "\n");
  }

  lemma LinesBelow(lines: seq<string>, more: seq<string>, text: string)
    requires lines != [] && more != [] && "\n" + Join(more, "\n") == text
    ensures Join(lines + more, "\n") == Join(lines, "\n") + text
  {
    JoinAppend(lines, more, "\n");
    assert Join(lines, "\n") + "\n" + Join(more, "\n") == Join(lines, "\n") + ("\n" + Join(more, "\n"));
  }

  lemma AboveFoot(lines: seq<string>)
    requires lines != []
    ensures Join(lines + FOOT, "\n") == Join(lines, "\n") + NOTICE
  {
    NoticeIsLines();
    LinesBelow(lines, FOOT, NOTICE);
  }

  lemma RenderIsLines(entries: seq<Scoped>, taken: seq<seq<string>>, truncated: bool)
    requires |entries| == |taken| && entries != [] && forall i :: 0 <= i < |taken| ==> taken[i] != []
    ensures Render(entries, taken, truncated) == Join(DigestLines(entries, taken, truncated), "\n")
  {
    var body := SectionLines(entries, taken);
    SectionsAreLines(entries, taken);
    BelowHead(body);
    AboveFoot(HEAD + body);
    assert HEAD + body + [] == HEAD + body;
  }

  predicate OneLine(line: string) { '\n' !in line }

  lemma {:induction false} SectionLinesAreLines(entries: seq<Scoped>, taken: seq<seq<string>>)
    requires |entries| == |taken|
    requires forall i :: 0 <= i < |entries| ==> OneLine(entries[i].scope) && OneLine(entries[i].id)
    requires forall i, j :: 0 <= i < |taken| && 0 <= j < |taken[i]| ==> OneLine(taken[i][j])
    ensures forall i :: 0 <= i < |SectionLines(entries, taken)| ==> OneLine(SectionLines(entries, taken)[i])
  {
    if entries == [] {
    } else {
      var n := |entries| - 1;
      SectionLinesAreLines(entries[..n], taken[..n]);
      assert OneLine(HeadingOf(entries[n]));
    }
  }

  lemma MoreIsOneLine()
    ensures OneLine(MORE)
  {
    assert '\n' !in "_More memory exists \U{2014} ";
    assert '\n' !in "use memory_search ";
    assert '\n' !in "to find specific entries._";
  }

  lemma FramedAreLines(body: seq<string>, truncated: bool)
    requires forall i :: 0 <= i < |body| ==> OneLine(body[i])
    ensures var lines := HEAD + body + if truncated then FOOT else [];
            forall i :: 0 <= i < |lines| ==> OneLine(lines[i])
  {
    assert forall i :: 0 <= i < |HEAD| ==> OneLine(HEAD[i]);
    MoreIsOneLine();
    assert forall i :: 0 <= i < |FOOT| ==> OneLine(FOOT[i]);
  }

  /** A digest reads as its headings with the lines taken below each, and the notice. */
  lemma DigestReadsBack(entries: seq<Scoped>, taken: seq<seq<string>>, truncated: bool)
    requires |entries| == |taken| && entries != [] && forall i :: 0 <= i < |taken| ==> taken[i] != []
    requires forall i :: 0 <= i < |entries| ==> OneLine(entries[i].scope) && OneLine(entries[i].id)
    requires forall i, j :: 0 <= i < |taken| && 0 <= j < |taken[i]| ==> OneLine(taken[i][j])
    ensures Split(Render(entries, taken, truncated), '\n') == DigestLines(entries, taken, truncated)
  {
    RenderIsLines(entries, taken, truncated);
    SectionLinesAreLines(entries, taken);
    FramedAreLines(SectionLines(entries, taken), truncated);
    var lines := DigestLines(entries, taken, truncated);
    assert forall i :: 0 <= i < |lines| ==> OneLine(lines[i]);
    SplitJoin(lines, '\n');
  }

  /** What lines count is the bytes of them with a newline each. */
  lemma {:induction false} CostIsBytes(lines: seq<string>)
    ensures Cost(lines) == Bytes(FlatMap((line: string) => line + "\n", lines))
  {
    if lines == [] {
    } else {
      var f := (line: string) => line + "\n";
      FlatMapHead(f, lines);
      CostIsBytes(lines[1..]);
      BytesAppend(f(lines[0]), FlatMap(f, lines[1..]));
      BytesAppend(lines[0], "\n");
      assert Bytes("\n") == 1 + Bytes("");
    }
  }

  /** Every entry shows something, so no section is skipped for being empty. */
  lemma NoSectionIsEmpty(dirs: seq<ScopeDir>, extra: nat, taken: seq<seq<string>>, i: nat)
    requires extra <= |Overflow(Entries(dirs))| && Shows(Entries(dirs), extra, taken) && i < |taken|
    ensures taken[i] != []
  {
    ShowsPrefixes(Entries(dirs), extra, taken, i);
  }

  method RenderSections(entries: seq<Scoped>, taken: seq<seq<string>>, truncated: bool) returns (result: string)
    requires |entries| == |taken|
    ensures result == Render(entries, taken, truncated) && result != ""
  {
    var sections: seq<string> := [];
    for i := 0 to |entries|
      invariant sections == Sections(entries[..i], taken[..i])
    {
      assert entries[..i + 1][..i] == entries[..i] && taken[..i + 1][..i] == taken[..i];
      sections := sections + [Section(entries[i], taken[i])];
    }
    assert entries[..|entries|] == entries && taken[..|entries|] == taken;
    result := "\n\n## Memory\n\n" + Join(sections, "\n\n") + if truncated then NOTICE else "";
  }

  /** `result` is a digest of these scopes within this budget. */
  ghost predicate IsDigest(entries: seq<Scoped>, charBudget: int, result: string) {
    exists taken, extra ::
      && Buys(entries, charBudget, extra) && Shows(entries, extra, taken)
      && result == Render(entries, taken, Overflow(entries) != [])
  }

  /** The digest is empty exactly when no scope has a line; otherwise every such scope has its
      section, with the lines the budget buys, and the notice iff some scope exceeds its guarantee. */
  method Build(dirs: seq<ScopeDir>, tokenBudget: int) returns (result: string)
    ensures result == "" <==> Entries(dirs) == []
    ensures result != "" ==> IsDigest(Entries(dirs), tokenBudget * CHARS_PER_TOKEN, result)
  {
    var entries := Entries(dirs);
    if entries == [] {
      return "";
    }
    var taken, truncated, extra := Apportion(entries, tokenBudget * CHARS_PER_TOKEN);
    result := RenderSections(entries, taken, truncated);
  }
}
