/** The conversation table and its keyset pagination (conversation_repository.go). The
    database is taken to answer ordered, filtered queries as SQL says. */
module Pagination {
  import opened Sorting

  datatype Row = Row(id: string, workspace: string, user: string, title: string, session: string, updated: int)

  /** What rows are ordered by. */
  datatype Pos = Pos(updated: int, id: string)

  datatype Filter = Filter(workspace: string, user: string, pageSize: int, token: string)

  /** An answer, by the positions of its conversations. */
  datatype Listed = Page(found: seq<Pos>, next: string) | Invalid

  const DEFAULT_PAGE_SIZE := 20
  const MAX_PAGE_SIZE := 100

  /** Conversation ids are non-empty and are the primary key. */
  ghost predicate Keyed(table: map<string, Row>) {
    forall id :: id in table ==> id != "" && table[id].id == id
  }

  function PosOf(r: Row): Pos { Pos(r.updated, r.id) }

  /** `a` is listed no later than `b`: `ORDER BY updated_at DESC, id DESC`. */
  predicate Before(a: Pos, b: Pos) {
    a.updated > b.updated || (a.updated == b.updated && LexLe(b.id, a.id))
  }

  lemma BeforeIsTotal()
    ensures TotalOrder(Before)
  {
    LexTotalOrder();
  }

  /** The positions of the rows a user owns. */
  function Mine(table: map<string, Row>, workspace: string, user: string): set<Pos> {
    set id | id in table && table[id].workspace == workspace && table[id].user == user :: PosOf(table[id])
  }

  /** `(updated_at, id) < cursor`. */
  function Past(s: set<Pos>, cursor: Pos): set<Pos> {
    set x | x in s && x != cursor && Before(cursor, x)
  }

  ghost function Order(s: set<Pos>): (xs: seq<Pos>)
    ensures |xs| == |s| && Sorted(Before, xs) && forall x :: x in xs <==> x in s
  {
    BeforeIsTotal();
    Listing(Before, s)
  }

  /** Run an ordered query. */
  method Query(s: set<Pos>) returns (found: seq<Pos>)
    ensures found == Order(s)
  {
    BeforeIsTotal();
    found := Sort(Before, s);
  }

  // ------------------------------------------------------------------ one page

  predicate Valid(f: Filter) { f.workspace != "" && f.user != "" && 0 <= f.pageSize <= MAX_PAGE_SIZE }

  function Size(pageSize: int): int { if pageSize == 0 then DEFAULT_PAGE_SIZE else pageSize }

  /** A token is looked up by id alone; one that names no conversation is ignored. */
  function Candidates(table: map<string, Row>, f: Filter): set<Pos> {
    var mine := Mine(table, f.workspace, f.user);
    if f.token != "" && f.token in table then Past(mine, PosOf(table[f.token])) else mine
  }

  /** The first page of what a query finds. */
  function FirstOf(found: seq<Pos>, size: int): Listed
    requires size > 0
  {
    if |found| > size then Page(found[..size], found[size - 1].id) else Page(found, "")
  }

  /** The page a request is answered with. */
  ghost function Answer(table: map<string, Row>, f: Filter): Listed {
    if !Valid(f) then Invalid else FirstOf(Order(Candidates(table, f)), Size(f.pageSize))
  }

  /** Positions and rows name each other. */
  lemma MineAreRows(table: map<string, Row>, workspace: string, user: string)
    requires Keyed(table)
    ensures forall x :: x in Mine(table, workspace, user) ==> x.id in table && x == PosOf(table[x.id])
  {}

  /** `convs` are the rows at these positions. */
  ghost predicate Fetched(table: map<string, Row>, found: seq<Pos>, convs: seq<Row>) {
    && |convs| == |found|
    && forall i :: 0 <= i < |found| ==> found[i].id in table && convs[i] == table[found[i].id]
  }

  /** Ask for one more than a page, return a page and, if there was more, its last id. */
  method Cut(table: map<string, Row>, all: seq<Pos>, pageSize: int) returns (listed: Listed, convs: seq<Row>)
    requires pageSize > 0 && forall i :: 0 <= i < |all| ==> all[i].id in table
    ensures listed == FirstOf(all, pageSize) && Fetched(table, listed.found, convs)
  {
    var found := if |all| > pageSize + 1 then all[..pageSize + 1] else all;
    var next := "";
    if |found| > pageSize {
      found := found[..pageSize];
      next := found[pageSize - 1].id;
    }
    assert |all| > pageSize ==> found == all[..pageSize];
    listed := Page(found, next);
    convs := seq(|found|, i requires 0 <= i < |found| => table[found[i].id]);
  }

  lemma OrderAreRows(table: map<string, Row>, f: Filter)
    requires Keyed(table)
    ensures forall i :: 0 <= i < |Order(Candidates(table, f))| ==>
              Order(Candidates(table, f))[i].id in table && Order(Candidates(table, f))[i].id != ""
  {
    var found := Order(Candidates(table, f));
    forall i | 0 <= i < |found| ensures found[i].id in table && found[i].id != "" {
      assert found[i] in found;
    }
  }

  class Conversations {
    var rows: map<string, Row>

    constructor ()
      ensures rows == map[]
    {
      rows := map[];
    }

    /** `id` is the generated uuid; the primary key refuses one that is taken. */
    method Create(id: string, workspace: string, user: string, title: string, now: int) returns (ok: bool)
      requires Keyed(rows) && id != ""
      modifies this
      ensures Keyed(rows)
      ensures ok <==> workspace != "" && user != "" && id !in old(rows)
      ensures rows == if !ok then old(rows)
                      else
                        var shown := if title == "" then "New conversation" else title;
                        old(rows)[id := Row(id, workspace, user, shown, "", now)]
    {
      if workspace == "" || user == "" || id in rows {
        return false;
      }
      var named := title;
      if named == "" {
        named := "New conversation";
      }
      rows := rows[id := Row(id, workspace, user, named, "", now)];
      ok := true;
    }

    method Touch(id: string, now: int) returns (ok: bool)
      requires Keyed(rows)
      modifies this
      ensures Keyed(rows) && (ok <==> id != "")
      ensures rows == if id in old(rows) then old(rows)[id := old(rows)[id].(updated := now)] else old(rows)
    {
      if id == "" {
        return false;
      }
      if id in rows {
        rows := rows[id := rows[id].(updated := now)];
      }
      ok := true;
    }

    method UpdateSessionID(id: string, session: string, now: int) returns (ok: bool)
      requires Keyed(rows)
      modifies this
      ensures Keyed(rows) && (ok <==> id != "")
      ensures rows == if id !in old(rows) then old(rows)
                      else old(rows)[id := old(rows)[id].(session := session, updated := now)]
    {
      if id == "" {
        return false;
      }
      if id in rows {
        rows := rows[id := rows[id].(session := session, updated := now)];
      }
      ok := true;
    }

    method List(f: Filter) returns (listed: Listed, convs: seq<Row>)
      requires Keyed(rows)
      ensures listed == Answer(rows, f)
      ensures listed.Invalid? <==> f.workspace == "" || f.user == "" || f.pageSize < 0 || f.pageSize > 100
      ensures listed.Invalid? ==> convs == []
      ensures listed.Page? ==> Fetched(rows, listed.found, convs)
    {
      if f.workspace == "" || f.user == "" || f.pageSize < 0 || f.pageSize > MAX_PAGE_SIZE {
        return Invalid, [];
      }
      var pageSize := f.pageSize;
      if pageSize == 0 {
        pageSize := DEFAULT_PAGE_SIZE;
      }
      var wanted := Mine(rows, f.workspace, f.user);
      if f.token != "" && f.token in rows {
        wanted := Past(wanted, PosOf(rows[f.token]));
      }
      assert wanted == Candidates(rows, f);
      OrderAreRows(rows, f);
      var found := Query(wanted);
      listed, convs := Cut(rows, found, pageSize);
    }
  }

  // ------------------------------------------------------------------ following the tokens

  lemma BeforeAntisym(a: Pos, b: Pos)
    requires Before(a, b) && Before(b, a)
    ensures a == b
  {
    LexAntisym(a.id, b.id);
  }

  /** Where position j of a listing stands, among what is past position k. */
  lemma InPast(s: set<Pos>, k: nat, j: nat)
    requires k < |Order(s)| && j < |Order(s)|
    ensures Order(s)[j] in Past(s, Order(s)[k]) <==> k < j
  {
    var a, b := Order(s)[k], Order(s)[j];
    assert b in Order(s);
    if k < j {
      assert Before(a, b) && a != b;
    } else if j < k {
      assert Before(b, a) && a != b;
      if Before(a, b) {
        BeforeAntisym(a, b);
      }
    }
  }

  lemma InRest(all: seq<Pos>, k: nat, j: nat)
    requires Sorted(Before, all) && k < |all| && j < |all|
    ensures all[j] in all[k + 1..] <==> k < j
  {
    var rest := all[k + 1..];
    assert forall i :: 0 <= i < |rest| ==> rest[i] == all[k + 1 + i];
    assert k < j ==> rest[j - k - 1] == all[j];
  }

  lemma ListedInOrder(xs: seq<Pos>, s: set<Pos>)
    requires Sorted(Before, xs) && forall x :: x in xs <==> x in s
    ensures xs == Order(s)
  {
    BeforeIsTotal();
    SortedUnique(Before, xs, Order(s));
  }

  /** What comes after position k is the rest of the listing. */
  lemma PastIsTheRest(s: set<Pos>, k: nat)
    requires k < |Order(s)|
    ensures Order(Past(s, Order(s)[k])) == Order(s)[k + 1..]
  {
    var all := Order(s);
    var rest := all[k + 1..];
    forall x ensures x in rest <==> x in Past(s, all[k]) {
      if x in s {
        assert x in all;
        var j :| 0 <= j < |all| && all[j] == x;
        InPast(s, k, j);
        InRest(all, k, j);
      }
    }
    ListedInOrder(rest, Past(s, all[k]));
  }

  /** Everything a user owns, newest first. */
  ghost function Everything(table: map<string, Row>, f: Filter): seq<Pos> { Order(Mine(table, f.workspace, f.user)) }

  ghost predicate Follows(table: map<string, Row>, first: Filter, page: Listed, next: Listed) {
    page.Page? && page.next != "" && next == Answer(table, first.(token := page.next))
  }

  /** A client follows next-page tokens: it asks for the first page, then again with each token. */
  ghost predicate Walk(table: map<string, Row>, first: Filter, pages: seq<Listed>) {
    && Valid(first) && first.token == "" && pages != []
    && pages[0] == Answer(table, first)
    && forall i :: 0 <= i < |pages| - 1 ==> Follows(table, first, pages[i], pages[i + 1])
  }

  /** The listing read on from index `at`. */
  ghost function Rest(table: map<string, Row>, f: Filter, at: int): seq<Pos> {
    var all := Everything(table, f); if 0 <= at <= |all| then all[at..] else []
  }

  /** With the last conversation of what was listed as the token, the answer is the next page. */
  lemma NextPage(table: map<string, Row>, f: Filter, at: int)
    requires Keyed(table) && Valid(f) && 0 < at <= |Everything(table, f)|
    requires f.token == Everything(table, f)[at - 1].id
    ensures Answer(table, f) == FirstOf(Rest(table, f, at), Size(f.pageSize))
  {
    var mine, last := Mine(table, f.workspace, f.user), Everything(table, f)[at - 1];
    MineAreRows(table, f.workspace, f.user);
    assert last in Everything(table, f);
    assert Candidates(table, f) == Past(mine, last);
    PastIsTheRest(mine, at - 1);
  }

  ghost predicate Turns(all: seq<Pos>, size: int, page: Listed, next: Listed)
    requires size > 0
  {
    && page.Page? && page.next != ""
    && forall at :: 0 < at <= |all| && all[at - 1].id == page.next ==> next == FirstOf(all[at..], size)
  }

  /** The same for a fixed listing: each page is answered by what follows the one before it. */
  ghost predicate Chain(all: seq<Pos>, size: int, pages: seq<Listed>) {
    && size > 0 && pages != [] && (forall i :: 0 <= i < |all| ==> all[i].id != "")
    && pages[0] == FirstOf(all, size)
    && forall i :: 0 <= i < |pages| - 1 ==> Turns(all, size, pages[i], pages[i + 1])
  }

  lemma WalkIsChain(table: map<string, Row>, first: Filter, pages: seq<Listed>)
    requires Keyed(table) && Walk(table, first, pages)
    ensures Chain(Everything(table, first), Size(first.pageSize), pages)
  {
    OrderAreRows(table, first);
    var all, size := Everything(table, first), Size(first.pageSize);
    forall i | 0 <= i < |pages| - 1 ensures Turns(all, size, pages[i], pages[i + 1]) {
      assert Follows(table, first, pages[i], pages[i + 1]);
      forall at | 0 < at <= |all| && all[at - 1].id == pages[i].next ensures pages[i + 1] == FirstOf(all[at..], size) {
        NextPage(table, first.(token := pages[i].next), at);
      }
    }
  }

  /** The i-th page is the i-th stretch of the listing. */
  lemma {:induction false} ChainPage(all: seq<Pos>, size: int, pages: seq<Listed>, i: nat, at: int)
    requires Chain(all, size, pages) && i < |pages| && at == i * size
    ensures 0 <= at <= |all| && (i > 0 ==> at < |all|)
    ensures pages[i] == FirstOf(all[at..], size)
  {
    if i == 0 {
      assert all[0..] == all;
    } else {
      ChainPage(all, size, pages, i - 1, at - size);
      assert Turns(all, size, pages[i - 1], pages[i]);
      assert all[at - size..][size - 1] == all[at - 1];
    }
  }

  /** All the conversations listed by some pages. */
  function AllOf(pages: seq<Listed>): seq<Pos> {
    if pages == [] then []
    else AllOf(pages[..|pages| - 1]) + if pages[|pages| - 1].Page? then pages[|pages| - 1].found else []
  }

  lemma Extends(all: seq<Pos>, at: int, size: int)
    requires 0 <= at <= |all| && size > 0
    ensures all[..at] + FirstOf(all[at..], size).found == if at + size <= |all| then all[..at + size] else all
  {
    var rest := all[at..];
    if |rest| > size {
      assert all[..at] + rest[..size] == all[..at + size];
    } else {
      assert all[..at] + rest == all;
      assert all[..|all|] == all;
    }
  }

  lemma {:induction false} ChainSoFar(all: seq<Pos>, size: int, pages: seq<Listed>, end: int)
    requires Chain(all, size, pages) && end == |pages| * size
    ensures 0 <= end && AllOf(pages) == if end <= |all| then all[..end] else all
  {
    var m := |pages| - 1;
    ChainPage(all, size, pages, m, end - size);
    if m > 0 {
      ChainSoFar(all, size, pages[..m], end - size);
    } else {
      assert AllOf(pages[..m]) == all[..0];
    }
    Extends(all, end - size, size);
  }

  /** How many requests it takes to see n conversations: max(1, ceil(n / size)). */
  function Requests(n: nat, size: int): int
    requires size > 0
  {
    if n == 0 then 1 else (n + size - 1) / size
  }

  lemma TimesOrder(a: int, b: int, size: int)
    requires size > 0
    ensures a >= b ==> a * size >= b * size
    ensures a <= b ==> a * size <= b * size
  {}

  lemma RequestsRoundsUp(n: nat, size: int)
    requires size > 0 && n > 0
    ensures var r := Requests(n, size); n <= r * size < n + size
  {
    var r := Requests(n, size);
    assert n + size - 1 == r * size + (n + size - 1) % size;
  }

  lemma RequestsIs(n: nat, size: int, m: int, at: int)
    requires size > 0 && m >= 1 && at == (m - 1) * size && (m == 1 || at < n)
    ensures m <= Requests(n, size)
    ensures at + size >= n <==> m == Requests(n, size)
  {
    var r := Requests(n, size);
    assert at + size == m * size;
    if n > 0 {
      RequestsRoundsUp(n, size);
      TimesOrder(m - 1, r, size);
      TimesOrder(m, r - 1, size);
    }
  }

  lemma ChainEnds(all: seq<Pos>, size: int, pages: seq<Listed>, at: int)
    requires Chain(all, size, pages) && at == (|pages| - 1) * size
    ensures var last := pages[|pages| - 1];
            && last.Page? && (|pages| == 1 || at < |all|)
            && (last.next == "" <==> at + size >= |all|)
            && (last.next == "" ==> AllOf(pages) == all)
  {
    ChainPage(all, size, pages, |pages| - 1, at);
    ChainSoFar(all, size, pages, at + size);
    var rest := all[at..];
    assert |rest| > size ==> rest[size - 1] == all[at + size - 1];
  }

  lemma ChainListsAll(all: seq<Pos>, size: int, pages: seq<Listed>)
    requires Chain(all, size, pages)
    ensures var last := pages[|pages| - 1];
            && last.Page? && |pages| <= Requests(|all|, size)
            && (last.next == "" <==> |pages| == Requests(|all|, size))
            && (last.next == "" ==> AllOf(pages) == all)
  {
    var at := (|pages| - 1) * size;
    ChainEnds(all, size, pages, at);
    RequestsIs(|all|, size, |pages|, at);
  }

  /** Over an unchanged table, following the tokens makes at most max(1, ceil(n/p)) requests,
      stops after exactly that many, and then has listed all n conversations, in order. */
  lemma WalkListsEverything(table: map<string, Row>, first: Filter, pages: seq<Listed>)
    requires Keyed(table) && Walk(table, first, pages)
    ensures var n, last := |Everything(table, first)|, pages[|pages| - 1];
            var size := if first.pageSize == 0 then 20 else first.pageSize;
            && size > 0 && last.Page?
            && |pages| <= Requests(n, size)
            && (last.next == "" <==> |pages| == Requests(n, size))
            && (last.next == "" ==> AllOf(pages) == Everything(table, first))
  {
    WalkIsChain(table, first, pages);
    ChainListsAll(Everything(table, first), Size(first.pageSize), pages);
  }

  lemma FirstOfRest(all: seq<Pos>, at: int, size: int)
    requires 0 <= at <= |all| && size > 0
    ensures var page := FirstOf(all[at..], size);
            && page.found == all[at..if at + size <= |all| then at + size else |all|]
            && (page.next == if at + size < |all| then all[at + size - 1].id else "")
  {
    if at + size < |all| {
      assert all[at..][..size] == all[at..at + size];
    }
  }

  /** Page i holds the i-th stretch of the listing, of the size asked for, or 20 if none was, and only
      the last one has no token. */
  lemma PagesHaveTheSizeAskedFor(table: map<string, Row>, first: Filter, pages: seq<Listed>, i: nat,
                                 size: int, at: int)
    requires Keyed(table) && Walk(table, first, pages) && i < |pages|
    requires size == (if first.pageSize == 0 then 20 else first.pageSize) && at == i * size
    ensures var all := Everything(table, first);
            && 0 <= at <= |all| && pages[i].Page?
            && pages[i].found == all[at..if at + size <= |all| then at + size else |all|]
            && (pages[i].next == if at + size < |all| then all[at + size - 1].id else "")
  {
    WalkIsChain(table, first, pages);
    ChainPage(Everything(table, first), size, pages, i, at);
    FirstOfRest(Everything(table, first), at, size);
  }

  /** A token that names no conversation is no token. */
  lemma UnknownTokenStartsOver(table: map<string, Row>, f: Filter)
    requires f.token !in table
    ensures Answer(table, f) == Answer(table, f.(token := ""))
  {}

  /** The listing holds each conversation of the user exactly once, newest first. */
  lemma EachExactlyOnce(table: map<string, Row>, f: Filter, id: string)
    requires Keyed(table)
    ensures var all := Everything(table, f);
            && ((id in table && table[id].workspace == f.workspace && table[id].user == f.user)
                <==> exists i :: 0 <= i < |all| && all[i].id == id)
            && (forall i, j :: 0 <= i < j < |all| ==>
                  && all[i].id != all[j].id && all[i].updated >= all[j].updated
                  && (all[i].updated == all[j].updated ==> LexLe(all[j].id, all[i].id)))
  {
    var all := Everything(table, f);
    MineAreRows(table, f.workspace, f.user);
    assert forall i :: 0 <= i < |all| ==> all[i] in all;
    if id in table && table[id].workspace == f.workspace && table[id].user == f.user {
      assert PosOf(table[id]) in all;
    }
  }

  lemma NewestComesFirst(s: set<Pos>, top: Pos)
    requires top in s && forall x :: x in s && x != top ==> x.updated < top.updated
    ensures |Order(s)| > 0 && Order(s)[0] == top
  {
    var all := Order(s);
    assert top in all;
    var k :| 0 <= k < |all| && all[k] == top;
    LexRefl(top.id);
    assert all[0] in all && Before(all[0], top);
  }

  /** The table after one conversation is touched. */
  function Touched(table: map<string, Row>, x: string, now: int): map<string, Row>
    requires x in table
  {
    table[x := table[x].(updated := now)]
  }

  lemma TouchedMine(table: map<string, Row>, f: Filter, x: string, now: int)
    requires Keyed(table) && x in table
    ensures var t := Touched(table, x, now);
            Mine(t, f.workspace, f.user) ==
              if table[x].workspace == f.workspace && table[x].user == f.user
              then Mine(table, f.workspace, f.user) - {PosOf(table[x])} + {Pos(now, x)}
              else Mine(table, f.workspace, f.user)
  {
    var t := Touched(table, x, now);
    forall id | id in table && id != x ensures id in t && t[id] == table[id] {}
    assert t[x] == table[x].(updated := now) && PosOf(t[x]) == Pos(now, x);
    MineAreRows(table, f.workspace, f.user);
    forall y ensures y in Mine(t, f.workspace, f.user) <==>
      y in if table[x].workspace == f.workspace && table[x].user == f.user
           then Mine(table, f.workspace, f.user) - {PosOf(table[x])} + {Pos(now, x)}
           else Mine(table, f.workspace, f.user)
    {
      assert y in Mine(t, f.workspace, f.user) <==>
             y.id in t && t[y.id].workspace == f.workspace && t[y.id].user == f.user && y == PosOf(t[y.id]);
      assert y in Mine(table, f.workspace, f.user) <==>
             y.id in table && table[y.id].workspace == f.workspace && table[y.id].user == f.user &&
               y == PosOf(table[y.id]);
    }
  }

  /** Replacing a position by a newer one takes it out of what is past an older cursor. */
  lemma PastTouched(s: set<Pos>, old': Pos, top: Pos, cursor: Pos)
    requires cursor.updated < top.updated
    ensures Past(s - {old'} + {top}, cursor) == Past(s, cursor) - {old'}
  {}

  lemma PastTop(s: set<Pos>, old': Pos, top: Pos)
    requires forall y :: y in s ==> y.updated < top.updated
    ensures Past(s - {old'} + {top}, top) == s - {old'}
  {}

  lemma SameOrderSameSet(a: set<Pos>, b: set<Pos>)
    ensures Order(a) == Order(b) <==> a == b
  {
    if Order(a) == Order(b) {
      forall x ensures x in a <==> x in b {
        assert x in a <==> x in Order(a);
      }
    }
  }

  lemma IsTheRestIff(s: set<Pos>, found: set<Pos>, k: nat)
    requires k < |Order(s)|
    ensures Order(found) == Order(s)[k + 1..] <==> found == Past(s, Order(s)[k])
  {
    PastIsTheRest(s, k);
    SameOrderSameSet(found, Past(s, Order(s)[k]));
  }

  lemma IdsDiffer(table: map<string, Row>, f: Filter, j: nat)
    requires Keyed(table) && j < |Everything(table, f)|
    ensures forall i :: 0 <= i < |Everything(table, f)| && i != j ==>
            Everything(table, f)[i].id != Everything(table, f)[j].id
  {
    EachExactlyOnce(table, f, "");
  }

  lemma TouchedToken(s: set<Pos>, k: nat)
    requires k < |Order(s)|
    ensures s - {Order(s)[k]} == Past(s, Order(s)[k]) <==> k == 0
  {
    var all := Order(s);
    if k == 0 {
      forall x | x in s && x != all[0] ensures x in Past(s, all[0]) {
        assert x in all;
        var j :| 0 <= j < |all| && all[j] == x;
        InPast(s, 0, j);
      }
    } else {
      assert all[0] in all;
      InPast(s, k, 0);
      assert all[0] != all[k];
    }
  }

  /** What is answered past the token when position j of the listing is touched. */
  lemma CandidatesAfterTouch(table: map<string, Row>, f: Filter, k: nat, j: nat, now: int)
    requires Keyed(table) && k < |Everything(table, f)| && j < |Everything(table, f)|
    requires f.token == Everything(table, f)[k].id
    requires forall id :: id in table ==> table[id].updated < now
    ensures var all, mine := Everything(table, f), Mine(table, f.workspace, f.user);
            && all[j].id in table
            && Candidates(Touched(table, all[j].id, now), f) ==
                 if j == k then mine - {all[k]} else Past(mine, all[k]) - {all[j]}
  {
    var mine, all := Mine(table, f.workspace, f.user), Everything(table, f);
    MineAreRows(table, f.workspace, f.user);
    assert all[j] in all && all[k] in all;
    var x := all[j].id;
    TouchedMine(table, f, x, now);
    IdsDiffer(table, f, j);
    if j == k {
      PastTop(mine, all[j], Pos(now, x));
    } else {
      PastTouched(mine, all[j], Pos(now, x), all[k]);
      assert Touched(table, x, now)[f.token] == table[f.token];
    }
  }

  lemma HarmlessSets(s: set<Pos>, k: nat, j: nat)
    requires k < |Order(s)| && j < |Order(s)|
    ensures (if j == k then s - {Order(s)[k]} else Past(s, Order(s)[k]) - {Order(s)[j]}) == Past(s, Order(s)[k]) <==>
            j < k || j == k == 0
  {
    if j == k {
      TouchedToken(s, k);
    } else {
      InPast(s, k, j);
      var past := Past(s, Order(s)[k]);
      assert past - {Order(s)[j]} == past <==> Order(s)[j] !in past;
    }
  }

  /** Touching position j is harmless to a listing that stands at position k. */
  lemma TouchAtIsHarmlessIff(table: map<string, Row>, f: Filter, k: nat, j: nat, now: int)
    requires Keyed(table) && k < |Everything(table, f)| && j < |Everything(table, f)|
    requires f.token == Everything(table, f)[k].id
    requires forall id :: id in table ==> table[id].updated < now
    ensures var all := Everything(table, f);
            && all[j].id in table
            && (Order(Candidates(Touched(table, all[j].id, now), f)) == all[k + 1..] <==> j < k || j == k == 0)
  {
    var mine := Mine(table, f.workspace, f.user);
    CandidatesAfterTouch(table, f, k, j, now);
    IsTheRestIff(mine, Candidates(Touched(table, Everything(table, f)[j].id, now), f), k);
    HarmlessSets(mine, k, j);
  }

  lemma ForeignTouch(table: map<string, Row>, f: Filter, k: nat, x: string, now: int)
    requires Keyed(table) && x in table && k < |Everything(table, f)| && f.token == Everything(table, f)[k].id
    requires table[x].workspace != f.workspace || table[x].user != f.user
    ensures var all := Everything(table, f);
            && Order(Candidates(Touched(table, x, now), f)) == all[k + 1..]
            && forall i :: 0 <= i < |all| ==> all[i].id != x
  {
    var mine, all := Mine(table, f.workspace, f.user), Everything(table, f);
    MineAreRows(table, f.workspace, f.user);
    assert forall i :: 0 <= i < |all| ==> all[i] in all;
    EachExactlyOnce(table, f, x);
    TouchedMine(table, f, x, now);
    assert Touched(table, x, now)[f.token] == table[f.token];
    assert Candidates(Touched(table, x, now), f) == Past(mine, all[k]);
    IsTheRestIff(mine, Past(mine, all[k]), k);
  }

  /** A conversation is touched between two requests, the token being the one at index k of the
      listing. What is listed from there on is what was to come if and only if the touched
      conversation is not among what was to come and is not the token itself, unless the token is
      the first of all. */
  lemma TouchIsHarmlessIff(table: map<string, Row>, f: Filter, k: nat, x: string, now: int)
    requires Keyed(table) && x in table && k < |Everything(table, f)| && f.token == Everything(table, f)[k].id
    requires forall id :: id in table ==> table[id].updated < now
    ensures var all := Everything(table, f);
            Order(Candidates(Touched(table, x, now), f)) == all[k + 1..] <==>
              (forall i :: k < i < |all| ==> all[i].id != x) && (all[k].id == x ==> k == 0)
  {
    var mine, all := Mine(table, f.workspace, f.user), Everything(table, f);
    if table[x].workspace == f.workspace && table[x].user == f.user {
      EachExactlyOnce(table, f, x);
      var j :| 0 <= j < |all| && all[j].id == x;
      TouchAtIsHarmlessIff(table, f, k, j, now);
      IdsDiffer(table, f, j);
    } else {
      ForeignTouch(table, f, k, x, now);
    }
  }

  /** So touching a conversation not yet listed drops it from the rest of the walk, */
  lemma TouchedUnlistedIsDropped(table: map<string, Row>, f: Filter, k: nat, j: nat, now: int)
    requires Keyed(table) && k < j < |Everything(table, f)| && f.token == Everything(table, f)[k].id
    requires forall id :: id in table ==> table[id].updated < now
    ensures var x := Everything(table, f)[j].id;
            && x in table
            && forall y :: y in Order(Candidates(Touched(table, x, now), f)) ==> y.id != x
  {
    CandidatesAfterTouch(table, f, k, j, now);
    MineAreRows(table, f.workspace, f.user);
    var left := Candidates(Touched(table, Everything(table, f)[j].id, now), f);
    forall y | y in Order(left) ensures y.id != Everything(table, f)[j].id {
      assert y in left && y in Mine(table, f.workspace, f.user);
      assert Everything(table, f)[j] in Everything(table, f);
    }
  }

  /** and touching the token's conversation moves the cursor to the top: the walk starts over. */
  lemma TouchedCursorStartsOver(table: map<string, Row>, f: Filter, now: int)
    requires Keyed(table) && Valid(f) && f.token in table
    requires table[f.token].workspace == f.workspace && table[f.token].user == f.user
    requires forall id :: id in table ==> table[id].updated < now
    ensures var t := Touched(table, f.token, now);
            && |Everything(t, f)| > 0 && Everything(t, f)[0].id == f.token
            && Answer(t, f) == FirstOf(Rest(t, f, 1), Size(f.pageSize))
  {
    var t := Touched(table, f.token, now);
    var mine, top := Mine(t, f.workspace, f.user), Pos(now, f.token);
    assert Keyed(t) && top == PosOf(t[f.token]) && top in mine;
    MineAreRows(t, f.workspace, f.user);
    NewestComesFirst(mine, top);
    NextPage(t, f, 1);
  }
}
