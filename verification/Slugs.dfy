/** Slugs of generated documents and their de-duplication (docs/domain.py). */
module Slugs {
  import opened Text

  predicate IsSlugChar(c: char) { 'a' <= c <= 'z' || '0' <= c <= '9' }

  /** Every run of other characters becomes one dash. */
  function DashRuns(s: string): string {
    if s == "" then ""
    else
      var rest := DashRuns(s[1..]);
      if IsSlugChar(s[0]) then [s[0]] + rest
      else if StartsWith(rest, "-") then rest
      else "-" + rest
  }

  function StripDashes(s: string): string {
    if StartsWith(s, "-") then StripDashes(s[1..])
    else if EndsWith(s, "-") then StripDashes(s[..|s| - 1])
    else s
  }

  /** The slug of a title; `lower` is Python's `str.lower`. */
  function Slugify(lower: string -> string, title: string): string {
    var s := StripDashes(DashRuns(lower(title)));
    if s == "" then "doc" else s
  }

  /** Words of slug characters with single dashes between them. */
  ghost predicate Dashed(s: string) {
    && (forall i :: 0 <= i < |s| ==> IsSlugChar(s[i]) || s[i] == '-')
    && (forall i :: 0 <= i < |s| - 1 ==> s[i] != '-' || s[i + 1] != '-')
  }

  ghost predicate IsSlug(s: string) {
    s != "" && Dashed(s) && s[0] != '-' && s[|s| - 1] != '-'
  }

  lemma {:induction false} DashRunsDashed(s: string)
    ensures Dashed(DashRuns(s))
    ensures Dashed(s) ==> DashRuns(s) == s
  {
    if s == "" {
    } else {
      DashRunsDashed(s[1..]);
      if Dashed(s) {
        assert Dashed(s[1..]) by {
          forall i | 0 <= i < |s[1..]| ensures s[1..][i] == s[i + 1] {}
        }
        assert s == [s[0]] + s[1..];
        assert |s| > 1 ==> s[0] != '-' || s[1] != '-';
      }
    }
  }

  lemma {:induction false} StripDashesStrips(s: string)
    requires Dashed(s)
    ensures StripDashes(s) == "" || IsSlug(StripDashes(s))
    decreases |s|
  {
    if StartsWith(s, "-") {
      StripDashesStrips(s[1..]);
    } else if EndsWith(s, "-") {
      StripDashesStrips(s[..|s| - 1]);
    }
  }

  /** A slug is never empty and has single inner dashes only, whatever lower-casing makes of the
      title; and it is a slug of itself if lower-casing leaves slugs alone. */
  lemma SlugifyGivesSlugs(lower: string -> string, title: string)
    ensures IsSlug(Slugify(lower, title))
    ensures lower(Slugify(lower, title)) == Slugify(lower, title) ==>
              Slugify(lower, Slugify(lower, title)) == Slugify(lower, title)
  {
    DashRunsDashed(lower(title));
    StripDashesStrips(DashRuns(lower(title)));
    DashRunsDashed(Slugify(lower, title));
  }

  /** The words of a text: its longest runs of slug characters, in order. */
  function Words(s: string): seq<string> {
    if s == "" then []
    else
      var rest := Words(s[1..]);
      if !IsSlugChar(s[0]) then rest
      else if |s| > 1 && IsSlugChar(s[1]) && rest != [] then [[s[0]] + rest[0]] + rest[1..]
      else [[s[0]]] + rest
  }

  function DashAtStart(s: string): string { if s == "" || IsSlugChar(s[0]) then "" else "-" }

  function DashAtEnd(s: string): string { if s == "" || IsSlugChar(s[|s| - 1]) then "" else "-" }

  /** Dashing leaves the words with one dash between two, and one at each end that is not of a word. */
  ghost predicate JoinsWords(s: string) {
    var text := Join(Words(s), "-");
    if Words(s) == [] then DashRuns(s) == DashAtStart(s) == DashAtEnd(s) && (s != "" ==> DashRuns(s) == "-")
    else
      && text != "" && IsSlugChar(text[0]) && IsSlugChar(text[|text| - 1])
      && DashRuns(s) == DashAtStart(s) + text + DashAtEnd(s)
  }

  lemma JoinHead(c: char, words: seq<string>)
    requires words != []
    ensures Join([[c] + words[0]] + words[1..], "-") == [c] + Join(words, "-")
  {
    assert ([[c] + words[0]] + words[1..])[1..] == words[1..];
    if |words| > 1 {
      assert [c] + words[0] + "-" + Join(words[1..], "-") == [c] + (words[0] + "-" + Join(words[1..], "-"));
    }
  }

  lemma JoinCons(w: string, words: seq<string>)
    requires words != []
    ensures Join([w] + words, "-") == w + "-" + Join(words, "-")
  {
    assert ([w] + words)[1..] == words;
  }

  lemma DashFirst(s: string)
    requires s != "" && !IsSlugChar(s[0])
    ensures var rest := DashRuns(s[1..]);
            DashRuns(s) == if rest != "" && rest[0] == '-' then rest else "-" + rest
  {
    var rest := DashRuns(s[1..]);
    assert rest != "" ==> rest[..1] == [rest[0]];
  }

  lemma DashOnText(text: string, end: string)
    requires text != ""
    ensures var t := "" + text + end; t != "" && t[0] == text[0] && "-" + t == "-" + text + end
  {}

  /** A dash in front of words that stand at the start, */
  lemma DashBeforeWord(s: string)
    requires |s| > 1 && !IsSlugChar(s[0]) && IsSlugChar(s[1]) && Words(s[1..]) != [] && JoinsWords(s[1..])
    ensures JoinsWords(s)
  {
    var t, text := s[1..], Join(Words(s[1..]), "-");
    DashFirst(s);
    DashOnText(text, DashAtEnd(t));
    assert DashRuns(t) == "" + text + DashAtEnd(t);
    assert text[0] != '-' && Words(s) == Words(t) && DashAtEnd(s) == DashAtEnd(t);
  }

  /** none in front of one that is there already, */
  lemma DashBeforeDash(s: string)
    requires |s| > 1 && !IsSlugChar(s[0]) && !IsSlugChar(s[1]) && Words(s[1..]) != [] && JoinsWords(s[1..])
    ensures JoinsWords(s)
  {
    DashFirst(s);
    assert DashRuns(s[1..])[0] == '-';
  }

  /** and one where there is no word. */
  lemma DashBeforeNothing(s: string)
    requires s != "" && !IsSlugChar(s[0]) && Words(s[1..]) == [] && JoinsWords(s[1..])
    ensures JoinsWords(s)
  {
    DashFirst(s);
  }

  lemma OtherCharJoins(s: string)
    requires s != "" && !IsSlugChar(s[0]) && JoinsWords(s[1..])
    ensures JoinsWords(s)
  {
    if Words(s[1..]) == [] {
      DashBeforeNothing(s);
    } else if IsSlugChar(s[1]) {
      DashBeforeWord(s);
    } else {
      DashBeforeDash(s);
    }
  }

  lemma WordGrows(s: string)
    requires |s| > 1 && IsSlugChar(s[0]) && IsSlugChar(s[1]) && JoinsWords(s[1..])
    ensures JoinsWords(s)
  {
    var t := s[1..];
    var text := Join(Words(t), "-");
    assert Words(t) != [];
    JoinHead(s[0], Words(t));
    assert Words(s) == [[s[0]] + Words(t)[0]] + Words(t)[1..];
    assert [s[0]] + ("" + text + DashAtEnd(t)) == "" + ([s[0]] + text) + DashAtEnd(t);
  }

  lemma WordStarts(s: string)
    requires s != "" && IsSlugChar(s[0]) && (|s| > 1 ==> !IsSlugChar(s[1])) && JoinsWords(s[1..])
    ensures JoinsWords(s)
  {
    var t := s[1..];
    var text := Join(Words(t), "-");
    assert Words(s) == [[s[0]]] + Words(t);
    if Words(t) != [] {
      JoinCons([s[0]], Words(t));
      assert [s[0]] + ("-" + text + DashAtEnd(t)) == "" + ([s[0]] + "-" + text) + DashAtEnd(t);
    } else {
      assert Join(Words(s), "-") == [s[0]];
      assert [s[0]] + DashAtEnd(t) == "" + [s[0]] + DashAtEnd(s);
    }
  }

  lemma {:induction false} DashRunsJoins(s: string)
    ensures JoinsWords(s)
  {
    if s == "" {
    } else {
      DashRunsJoins(s[1..]);
      if !IsSlugChar(s[0]) {
        OtherCharJoins(s);
      } else if |s| > 1 && IsSlugChar(s[1]) {
        WordGrows(s);
      } else {
        WordStarts(s);
      }
    }
  }

  lemma {:induction false} StripDashesOf(left: string, text: string, right: string)
    requires (left == "" || left == "-") && (right == "" || right == "-")
    requires text != "" && text[0] != '-' && text[|text| - 1] != '-'
    ensures StripDashes(left + text + right) == text
    decreases |left| + |right|
  {
    var s := left + text + right;
    if left == "-" {
      StripDashesOf("", text, right);
      assert s[..1] == "-" && s[1..] == "" + text + right;
    } else {
      assert s[..1][0] == text[0];
      if right == "-" {
        StripDashesOf("", text, "");
        assert s[|s| - 1..] == "-" && s[..|s| - 1] == "" + text + "";
      } else {
        assert s == text && s[|s| - 1..][0] == text[|text| - 1];
      }
    }
  }

  /** The slug of a title is its lower-case words with dashes between them, or "doc" if it has none. */
  lemma SlugIsTheWords(lower: string -> string, title: string)
    ensures var words := Words(lower(title));
            Slugify(lower, title) == if words == [] then "doc" else Join(words, "-")
  {
    var s := lower(title);
    DashRunsJoins(s);
    if Words(s) == [] {
      assert "-"[1..] == "" && "-"[..1] == "-";
    } else {
      StripDashesOf(DashAtStart(s), Join(Words(s), "-"), DashAtEnd(s));
    }
  }

  /** The candidates in the order they are tried: the base, then base-2, base-3 and so on. */
  function Candidate(base: string, k: nat): string {
    if k <= 1 then base else base + "-" + Dec(k)
  }

  /** The first candidate is the base, the k-th the base with the number k after a dash. */
  lemma CandidatesAreNumbered(base: string, k: nat)
    requires k >= 1
    ensures k == 1 ==> Candidate(base, k) == base
    ensures k > 1 ==> var c := Candidate(base, k);
                      |c| > |base| + 1 && c[..|base| + 1] == base + "-" && DecValue(c[|base| + 1..]) == k
  {
    if k > 1 {
      assert Candidate(base, k)[|base| + 1..] == Dec(k);
      DecRoundTrip(k);
    }
  }

  lemma CandidatesDistinct(base: string, j: nat, k: nat)
    requires 1 <= j < k
    ensures Candidate(base, j) != Candidate(base, k)
  {
    if j > 1 && Candidate(base, j) == Candidate(base, k) {
      assert Candidate(base, j)[|base| + 1..] == Dec(j);
      assert Candidate(base, k)[|base| + 1..] == Dec(k);
      DecInjective(j, k);
    }
  }

  /** Pigeonhole: `n` distinct candidates can only all be taken by at least `n` slugs. */
  lemma {:induction false} TakenCandidates(base: string, n: nat, seen: set<string>)
    requires forall k :: 1 <= k <= n ==> Candidate(base, k) in seen
    ensures n <= |seen|
  {
    if n == 0 {
    } else {
      forall k | 1 <= k < n ensures Candidate(base, k) in seen - {Candidate(base, n)} {
        CandidatesDistinct(base, k, n);
      }
      TakenCandidates(base, n - 1, seen - {Candidate(base, n)});
    }
  }

  ghost predicate FirstFree(base: string, seen: set<string>, k: nat) {
    k >= 1 && Candidate(base, k) !in seen && forall j :: 1 <= j < k ==> Candidate(base, j) in seen
  }

  /** The loop ends, after at most one candidate more than there are slugs to avoid. */
  method UniqueSlug(base: string, seen: set<string>) returns (slug: string, tries: nat)
    ensures FirstFree(base, seen, tries) && slug == Candidate(base, tries)
    ensures tries <= |seen| + 1
  {
    slug := base;
    var n := 2;
    while slug in seen
      invariant n >= 2 && slug == Candidate(base, n - 1)
      invariant forall j :: 1 <= j < n - 1 ==> Candidate(base, j) in seen
      invariant n - 2 <= |seen|
      decreases |seen| + 2 - n
    {
      TakenCandidates(base, n - 1, seen);
      slug := base + "-" + Dec(n);
      n := n + 1;
    }
    tries := n - 1;
  }

  // ------------------------------------------------------------------ the document list

  /** A decoded list item whose title, category and body are already stripped strings. */
  datatype Item = Item(title: string, category: string, body: string)
  datatype DomainDoc = DomainDoc(title: string, category: string, slug: string, body: string)

  const VALID_CATEGORIES := {"architecture", "module", "concept", "data-flow", "glossary"}

  function CategoryOf(item: Item): string {
    if item.category in VALID_CATEGORIES then item.category else "concept"
  }

  function Usable(items: seq<Item>): seq<Item> {
    if items == [] then []
    else if items[0].title == "" || items[0].body == "" then Usable(items[1..])
    else [items[0]] + Usable(items[1..])
  }

  lemma {:induction false} UsableSnoc(items: seq<Item>, item: Item)
    ensures Usable(items + [item]) == Usable(items) + Usable([item])
  {
    if items == [] {
      assert items + [item] == [item];
    } else {
      assert (items + [item])[1..] == items[1..] + [item];
      UsableSnoc(items[1..], item);
    }
  }

  function UsableOf(item: Item): seq<Item> { if item.title != "" && item.body != "" then [item] else [] }

  /** The usable items are those with a title and a body, in order. */
  lemma {:induction false} UsableAreTheFilled(items: seq<Item>)
    ensures Usable(items) == FlatMap(UsableOf, items)
  {
    if items == [] {
    } else {
      var n := |items| - 1;
      UsableAreTheFilled(items[..n]);
      UsableSnoc(items[..n], items[n]);
      assert items[..n] + [items[n]] == items;
    }
  }

  /** A document has one of the known categories, its item's if that is one of them. */
  lemma CategoriesAreKnown(item: Item)
    ensures CategoryOf(item) in VALID_CATEGORIES
    ensures item.category in VALID_CATEGORIES ==> CategoryOf(item) == item.category
  {}

  ghost predicate DocOf(doc: DomainDoc, item: Item) {
    doc.title == item.title && doc.body == item.body && doc.category == CategoryOf(item)
  }

  ghost predicate DistinctSlugs(docs: seq<DomainDoc>) {
    forall i, j :: 0 <= i < j < |docs| ==> docs[i].slug != docs[j].slug
  }

  ghost function SlugsOf(docs: seq<DomainDoc>): set<string> {
    set i | 0 <= i < |docs| :: docs[i].slug
  }

  lemma SlugsSnoc(docs: seq<DomainDoc>, doc: DomainDoc)
    ensures SlugsOf(docs + [doc]) == SlugsOf(docs) + {doc.slug}
  {
    var all := docs + [doc];
    forall i | 0 <= i < |docs| ensures docs[i].slug in SlugsOf(all) {
      assert all[i] == docs[i];
    }
    assert all[|docs|] == doc;
  }

  /** The numbered slug each document took is the first one free of those before it. */
  ghost predicate TookFirstFree(lower: string -> string, docs: seq<DomainDoc>, i: nat)
    requires i < |docs|
  {
    var base := Slugify(lower, docs[i].title);
    exists k :: FirstFree(base, SlugsOf(docs[..i]), k) && docs[i].slug == Candidate(base, k)
  }

  ghost predicate AllTookFirstFree(lower: string -> string, docs: seq<DomainDoc>) {
    forall i :: 0 <= i < |docs| ==> TookFirstFree(lower, docs, i)
  }

  lemma TookSnoc(lower: string -> string, docs: seq<DomainDoc>, doc: DomainDoc, k: nat)
    requires AllTookFirstFree(lower, docs)
    requires var base := Slugify(lower, doc.title); FirstFree(base, SlugsOf(docs), k) && doc.slug == Candidate(base, k)
    ensures AllTookFirstFree(lower, docs + [doc])
  {
    var all := docs + [doc];
    forall i | 0 <= i < |all| ensures TookFirstFree(lower, all, i) {
      assert all[..i] == docs[..i];
      if i < |docs| {
        assert TookFirstFree(lower, docs, i);
      } else {
        assert docs[..i] == docs;
        assert FirstFree(Slugify(lower, all[i].title), SlugsOf(all[..i]), k);
      }
    }
  }

  /** `docs` are the documents of these usable items, each with its first free slug. */
  ghost predicate Parsed(lower: string -> string, items: seq<Item>, docs: seq<DomainDoc>) {
    && |docs| == |items| && (forall i :: 0 <= i < |docs| ==> DocOf(docs[i], items[i]))
    && DistinctSlugs(docs) && AllTookFirstFree(lower, docs)
  }

  lemma ParsedSnoc(lower: string -> string, items: seq<Item>, docs: seq<DomainDoc>, item: Item, doc: DomainDoc, k: nat)
    requires Parsed(lower, items, docs) && DocOf(doc, item)
    requires var base := Slugify(lower, doc.title); FirstFree(base, SlugsOf(docs), k) && doc.slug == Candidate(base, k)
    ensures Parsed(lower, items + [item], docs + [doc])
  {
    TookSnoc(lower, docs, doc, k);
    forall i | 0 <= i < |docs| ensures docs[i].slug != doc.slug {
      assert docs[i].slug in SlugsOf(docs);
    }
  }

  /** One document per usable item, in order, each with the first free candidate of its title:
      no two share a slug, even when a title already looks like another one's numbered slug. */
  method ParseDocs(lower: string -> string, items: seq<Item>) returns (docs: seq<DomainDoc>)
    ensures Parsed(lower, Usable(items), docs)
  {
    docs := [];
    var seen: set<string> := {};
    for n := 0 to |items|
      invariant Parsed(lower, Usable(items[..n]), docs) && seen == SlugsOf(docs)
    {
      var item := items[n];
      assert items[..n + 1] == items[..n] + [item];
      UsableSnoc(items[..n], item);
      assert Usable([item]) == if item.title == "" || item.body == "" then [] else [item];
      if item.title == "" || item.body == "" {
        assert Usable(items[..n]) + [] == Usable(items[..n]);
        continue;
      }
      var category := if item.category in VALID_CATEGORIES then item.category else "concept";
      var slug, tries := UniqueSlug(Slugify(lower, item.title), seen);
      var doc := DomainDoc(item.title, category, slug, item.body);
      ParsedSnoc(lower, Usable(items[..n]), docs, item, doc, tries);
      SlugsSnoc(docs, doc);
      docs := docs + [doc];
      seen := seen + {slug};
    }
    assert items[..|items|] == items;
  }
}
