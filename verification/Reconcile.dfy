/** The convergent indexing pass of one repo (pipeline/indexer.py, pipeline/state.py).

    The store is a map from point id to point; by `Schema.PointKeyInjective` an id is a path and
    an ordinal. `paths` is the in-memory `path -> blob sha` cache of what the store holds. Blob
    contents and the chunker are functions of their arguments; reading a blob or embedding its
    chunks may raise, which aborts the pass before the path's points are touched. */
module Reconcile {
  import opened Schema
  import opened Wrappers
  import Glob

  datatype Raw = Raw(text: string, symbol: string, startLine: nat, endLine: nat)

  datatype Env = Env(blob: Sha -> string, chunk: (string, Path) -> seq<Raw>, filter: Glob.Filter, maxFileBytes: nat)

  datatype ContentType = Code | Doc

  datatype Point = Point(kind: ContentType, path: Path, ordinal: nat, source: string, raw: Raw)

  type Id = (Path, nat)
  type Store = map<Id, Point>

  datatype Index = Index(points: Store, paths: map<Path, Sha>, commit: Option<string>)

  const EMPTY := Index(map[], map[], None)

  // ------------------------------------------------------------------ store operations

  function IdOf(p: Point): Id { (p.path, p.ordinal) }

  function Upsert(store: Store, points: seq<Point>): Store
    decreases |points|
  {
    if points == [] then store else Upsert(store[IdOf(points[0]) := points[0]], points[1..])
  }

  function DeleteByPath(store: Store, path: Path): Store {
    map id | id in store && store[id].path != path :: store[id]
  }

  function DeleteByType(store: Store, kind: ContentType): Store {
    map id | id in store && store[id].kind != kind :: store[id]
  }

  /** The points of one path, or of one content type. */
  function At(store: Store, path: Path): Store {
    map id | id in store && store[id].path == path :: store[id]
  }

  function OfType(store: Store, kind: ContentType): Store {
    map id | id in store && store[id].kind == kind :: store[id]
  }

  ghost predicate WellKeyed(store: Store) { forall id :: id in store ==> IdOf(store[id]) == id }

  // ------------------------------------------------------------------ what a blob should hold

  function CodePointsFrom(raws: seq<Raw>, sha: Sha, path: Path): seq<Point> {
    seq(|raws|, i requires 0 <= i < |raws| => Point(Code, path, i, sha, raws[i]))
  }

  /** The points of a blob at a path: none when it is too large, binary or empty. */
  function CodePoints(env: Env, path: Path, sha: Sha): seq<Point> {
    var content := env.blob(sha);
    if |content| > env.maxFileBytes then [] else CodePointsFrom(env.chunk(content, path), sha, path)
  }

  function Expected(env: Env, path: Path, sha: Sha): Store { Upsert(map[], CodePoints(env, path, sha)) }

  // ------------------------------------------------------------------ the pass, path by path

  function Drop(s: Index, path: Path): Index {
    s.(points := DeleteByPath(s.points, path), paths := s.paths - {path})
  }

  function EmbedPath(env: Env, s: Index, path: Path, sha: Sha): Index {
    var points := CodePoints(env, path, sha);
    if points == [] then Drop(s, path)
    else s.(points := Upsert(DeleteByPath(s.points, path), points), paths := s.paths[path := sha])
  }

  predicate Skips(skip: map<Path, Sha>, path: Path, sha: Sha) { path in skip && skip[path] == sha }

  function EmbedAll(env: Env, s: Index, skip: map<Path, Sha>, desired: map<Path, Sha>, order: seq<Path>): Index {
    if order == [] then s
    else
      var before := EmbedAll(env, s, skip, desired, order[..|order| - 1]);
      var path := order[|order| - 1];
      if path !in desired || Skips(skip, path, desired[path]) then before
      else EmbedPath(env, before, path, desired[path])
  }

  function DropAll(s: Index, gone: set<Path>): Index {
    s.(points := map id | id in s.points && s.points[id].path !in gone :: s.points[id], paths := s.paths - gone)
  }

  /** A pass that raised at position `reached` of the desired paths, or completed. */
  function Pass(env: Env, s: Index, desired: map<Path, Sha>, order: seq<Path>, full: bool, reached: nat,
                tip: string): Index
    requires reached <= |order|
  {
    var skip := if full then map[] else s.paths;
    var embedded := EmbedAll(env, s, skip, desired, order[..reached]);
    if reached < |order| then embedded
    else DropAll(embedded, s.paths.Keys - desired.Keys).(commit := Some(tip))
  }

  ghost predicate Enumerates(order: seq<Path>, desired: map<Path, Sha>) {
    && (forall p :: p in order <==> p in desired)
    && (forall i, j :: 0 <= i < j < |order| ==> order[i] != order[j])
  }

  // ------------------------------------------------------------------ agreement of cache and store

  /** Every recorded path has in the store exactly the points of its recorded blob. */
  ghost predicate Consistent(env: Env, s: Index) {
    forall p :: p in s.paths ==> CodePoints(env, p, s.paths[p]) != [] && At(s.points, p) == Expected(env, p, s.paths[p])
  }

  lemma {:induction false} UpsertKeyed(store: Store, points: seq<Point>)
    requires WellKeyed(store)
    ensures WellKeyed(Upsert(store, points))
    decreases |points|
  {
    if points == [] {
    } else {
      UpsertKeyed(store[IdOf(points[0]) := points[0]], points[1..]);
    }
  }

  /** Writing points of one path changes what the store holds at that path only. */
  lemma {:induction false} UpsertAt(store: Store, points: seq<Point>, path: Path, q: Path)
    requires WellKeyed(store) && forall i :: 0 <= i < |points| ==> points[i].path == path
    ensures At(Upsert(store, points), q) == if q == path then Upsert(At(store, q), points) else At(store, q)
    decreases |points|
  {
    if points == [] {
    } else {
      var p := points[0];
      var next := store[IdOf(p) := p];
      UpsertAt(next, points[1..], path, q);
      if q == path {
        assert At(next, q) == At(store, q)[IdOf(p) := p];
      } else {
        assert At(next, q) == At(store, q);
      }
    }
  }

  lemma EmbedPathEffect(env: Env, s: Index, path: Path, sha: Sha, q: Path)
    requires WellKeyed(s.points)
    ensures var t := EmbedPath(env, s, path, sha);
            && WellKeyed(t.points) && t.commit == s.commit
            && At(t.points, q) == (if q == path then Expected(env, path, sha) else At(s.points, q))
            && t.paths == (if CodePoints(env, path, sha) == [] then s.paths - {path} else s.paths[path := sha])
  {
    var cleared := DeleteByPath(s.points, path);
    assert At(cleared, q) == if q == path then map[] else At(s.points, q);
    UpsertKeyed(cleared, CodePoints(env, path, sha));
    UpsertAt(cleared, CodePoints(env, path, sha), path, q);
  }

  predicate Embeds(skip: map<Path, Sha>, desired: map<Path, Sha>, order: seq<Path>, q: Path) {
    q in order && q in desired && !Skips(skip, q, desired[q])
  }

  /** What the embedding loop does at `q`, over any store: */
  lemma {:induction false} EmbedAllAt(env: Env, s: Index, skip: map<Path, Sha>, desired: map<Path, Sha>,
                                      order: seq<Path>, q: Path)
    requires WellKeyed(s.points)
    ensures var t := EmbedAll(env, s, skip, desired, order);
            var embeds := Embeds(skip, desired, order, q);
            && At(t.points, q) == (if embeds then Expected(env, q, desired[q]) else At(s.points, q))
            && (q in t.paths <==> if embeds then CodePoints(env, q, desired[q]) != [] else q in s.paths)
            && (q in t.paths ==> t.paths[q] == if embeds then desired[q] else s.paths[q])
            && WellKeyed(t.points) && t.commit == s.commit
  {
    if order == [] {
    } else {
      var n := |order| - 1;
      var path := order[n];
      assert q in order <==> q in order[..n] || q == path;
      EmbedAllAt(env, s, skip, desired, order[..n], q);
      var before := EmbedAll(env, s, skip, desired, order[..n]);
      if path in desired && !Skips(skip, path, desired[path]) {
        EmbedPathEffect(env, before, path, desired[path], q);
      }
    }
  }

  /** and over one that agrees with the cache, where a skipped path is already exact. */
  lemma EmbedAllEffect(env: Env, s: Index, skip: map<Path, Sha>, desired: map<Path, Sha>, order: seq<Path>, q: Path)
    requires WellKeyed(s.points) && Consistent(env, s)
    requires forall p :: p in skip ==> p in s.paths && s.paths[p] == skip[p]
    requires forall i :: 0 <= i < |order| ==> order[i] in desired
    ensures var t := EmbedAll(env, s, skip, desired, order);
            && WellKeyed(t.points) && t.commit == s.commit
            && At(t.points, q) == (if q in order then Expected(env, q, desired[q]) else At(s.points, q))
            && (q in order ==> if CodePoints(env, q, desired[q]) == [] then q !in t.paths
                               else q in t.paths && t.paths[q] == desired[q])
            && (q !in order ==> (q in t.paths <==> q in s.paths) && (q in s.paths ==> t.paths[q] == s.paths[q]))
  {
    EmbedAllAt(env, s, skip, desired, order, q);
  }

  lemma DropAllEffect(s: Index, gone: set<Path>, q: Path)
    requires WellKeyed(s.points)
    ensures var t := DropAll(s, gone);
            && WellKeyed(t.points)
            && At(t.points, q) == (if q in gone then map[] else At(s.points, q))
            && (q in t.paths <==> q in s.paths && q !in gone) && (q in t.paths ==> t.paths[q] == s.paths[q])
  {}

  /** What a pass does at `q`, over any store. */
  lemma PassAt(env: Env, s: Index, desired: map<Path, Sha>, order: seq<Path>, full: bool, reached: nat, tip: string,
               q: Path)
    requires WellKeyed(s.points) && Enumerates(order, desired) && reached <= |order|
    ensures var t := Pass(env, s, desired, order, full, reached, tip);
            var embeds := Embeds(if full then map[] else s.paths, desired, order[..reached], q);
            var gone := reached == |order| && q in s.paths && q !in desired;
            && WellKeyed(t.points)
            && At(t.points, q) ==
                 (if embeds then Expected(env, q, desired[q]) else if gone then map[] else At(s.points, q))
            && (q in t.paths <==> if embeds then CodePoints(env, q, desired[q]) != [] else q in s.paths && !gone)
  {
    var skip := if full then map[] else s.paths;
    EmbedAllAt(env, s, skip, desired, order[..reached], q);
    if reached == |order| {
      assert order[..reached] == order;
      DropAllEffect(EmbedAll(env, s, skip, desired, order), s.paths.Keys - desired.Keys, q);
    }
  }

  /** What a pass leaves at `q`: in the store, */
  lemma PassPoints(env: Env, s: Index, desired: map<Path, Sha>, order: seq<Path>, full: bool, reached: nat,
                   tip: string, q: Path)
    requires WellKeyed(s.points) && Consistent(env, s) && Enumerates(order, desired) && reached <= |order|
    ensures var t := Pass(env, s, desired, order, full, reached, tip);
            && WellKeyed(t.points)
            && (q in order[..reached] ==> At(t.points, q) == Expected(env, q, desired[q]))
            && (q !in order[..reached] && reached < |order| ==> At(t.points, q) == At(s.points, q))
            && (reached == |order| && q !in desired ==>
                  At(t.points, q) == if q in s.paths then map[] else At(s.points, q))
  {
    var skip := if full then map[] else s.paths;
    EmbedAllEffect(env, s, skip, desired, order[..reached], q);
    if reached == |order| {
      assert order[..reached] == order;
      DropAllEffect(EmbedAll(env, s, skip, desired, order), s.paths.Keys - desired.Keys, q);
    }
  }

  /** and in the cache. */
  lemma PassPaths(env: Env, s: Index, desired: map<Path, Sha>, order: seq<Path>, full: bool, reached: nat,
                  tip: string, q: Path)
    requires WellKeyed(s.points) && Consistent(env, s) && Enumerates(order, desired) && reached <= |order|
    ensures var t := Pass(env, s, desired, order, full, reached, tip);
            && (q in order[..reached] ==> if CodePoints(env, q, desired[q]) == [] then q !in t.paths
                                          else q in t.paths && t.paths[q] == desired[q])
            && (q !in order[..reached] && reached < |order| ==>
                  (q in t.paths <==> q in s.paths) && (q in s.paths ==> t.paths[q] == s.paths[q]))
            && (reached == |order| && q !in desired ==> q !in t.paths)
            && t.commit == if reached == |order| then Some(tip) else s.commit
  {
    var skip := if full then map[] else s.paths;
    EmbedAllEffect(env, s, skip, desired, order[..reached], q);
    if reached == |order| {
      assert order[..reached] == order;
      DropAllEffect(EmbedAll(env, s, skip, desired, order), s.paths.Keys - desired.Keys, q);
    }
  }

  /** A pass that raises leaves every recorded path exact, wherever it stopped: each path holds
      either what it held or what its desired blob should hold. */
  lemma PassEffect(env: Env, s: Index, desired: map<Path, Sha>, order: seq<Path>, full: bool, reached: nat,
                   tip: string, q: Path)
    requires WellKeyed(s.points) && Consistent(env, s) && Enumerates(order, desired) && reached <= |order|
    ensures var t := Pass(env, s, desired, order, full, reached, tip);
            && WellKeyed(t.points)
            && (q in order[..reached] ==> At(t.points, q) == Expected(env, q, desired[q]))
            && (q !in order[..reached] && reached < |order| ==> At(t.points, q) == At(s.points, q))
            && (q in order[..reached] ==> if CodePoints(env, q, desired[q]) == [] then q !in t.paths
                                          else q in t.paths && t.paths[q] == desired[q])
            && (q !in order[..reached] && reached < |order| ==>
                  (q in t.paths <==> q in s.paths) && (q in s.paths ==> t.paths[q] == s.paths[q]))
            && (reached == |order| && q !in desired ==>
                  q !in t.paths && At(t.points, q) == if q in s.paths then map[] else At(s.points, q))
            && t.commit == if reached == |order| then Some(tip) else s.commit
  {
    PassPoints(env, s, desired, order, full, reached, tip, q);
    PassPaths(env, s, desired, order, full, reached, tip, q);
  }

  /** A completed pass makes the store exact on every desired and every recorded path and leaves
      all other points alone; the cache then records exactly the desired paths that have points. */
  lemma CompletedPassIsExact(env: Env, s: Index, desired: map<Path, Sha>, order: seq<Path>, full: bool, tip: string)
    requires WellKeyed(s.points) && Consistent(env, s) && Enumerates(order, desired)
    ensures var t := Pass(env, s, desired, order, full, |order|, tip);
            && WellKeyed(t.points) && t.commit == Some(tip)
            && (forall q :: At(t.points, q) ==
                  if q in desired then Expected(env, q, desired[q])
                  else if q in s.paths then map[] else At(s.points, q))
            && t.paths == map q | q in desired && CodePoints(env, q, desired[q]) != [] :: desired[q]
  {
    var t := Pass(env, s, desired, order, full, |order|, tip);
    assert order[..|order|] == order;
    PassEffect(env, s, desired, order, full, |order|, tip, "");
    forall q ensures At(t.points, q) == (if q in desired then Expected(env, q, desired[q])
                                         else if q in s.paths then map[] else At(s.points, q))
             ensures q in t.paths <==> q in desired && CodePoints(env, q, desired[q]) != []
             ensures q in t.paths ==> t.paths[q] == desired[q]
    {
      PassEffect(env, s, desired, order, full, |order|, tip, q);
    }
  }

  lemma PassKeepsConsistent(env: Env, s: Index, desired: map<Path, Sha>, order: seq<Path>, full: bool, reached: nat,
                            tip: string)
    requires WellKeyed(s.points) && Consistent(env, s) && Enumerates(order, desired) && reached <= |order|
    ensures var t := Pass(env, s, desired, order, full, reached, tip); WellKeyed(t.points) && Consistent(env, t)
  {
    var t := Pass(env, s, desired, order, full, reached, tip);
    PassEffect(env, s, desired, order, full, reached, tip, "");
    forall p | p in t.paths
      ensures CodePoints(env, p, t.paths[p]) != [] && At(t.points, p) == Expected(env, p, t.paths[p])
    {
      PassEffect(env, s, desired, order, full, reached, tip, p);
      assert reached == |order| ==> order[..reached] == order;
    }
  }

  // ------------------------------------------------------------------ what the points are

  /** `held` is the blob cut into its chunks: one code point a chunk, numbered from 0 in order, of that
      blob; none when the blob is too large. */
  ghost predicate HoldsChunks(env: Env, held: Store, path: Path, sha: Sha) {
    var blob := env.blob(sha);
    var raws := if |blob| > env.maxFileBytes then [] else env.chunk(blob, path);
    && (forall id :: id in held <==> id.0 == path && id.1 < |raws|)
    && (forall i: nat :: i < |raws| ==> held[(path, i)] == Point(Code, path, i, sha, raws[i]))
  }

  /** Where an upsert leaves an id: at the last point written to it, or as it was. */
  lemma {:induction false} UpsertLookup(store: Store, points: seq<Point>, id: Id)
    ensures id in Upsert(store, points) <==> id in store || exists i :: 0 <= i < |points| && IdOf(points[i]) == id
    ensures id in Upsert(store, points) ==>
              || (exists i :: 0 <= i < |points| && IdOf(points[i]) == id && Upsert(store, points)[id] == points[i])
              || ((forall i :: 0 <= i < |points| ==> IdOf(points[i]) != id) && Upsert(store, points)[id] == store[id])
    decreases |points|
  {
    if points == [] {
    } else {
      var next := store[IdOf(points[0]) := points[0]];
      var rest := points[1..];
      UpsertLookup(next, rest, id);
      assert forall i :: 0 <= i < |rest| ==> rest[i] == points[i + 1];
      if i :| 0 <= i < |rest| && IdOf(rest[i]) == id {
        assert IdOf(points[i + 1]) == id;
      } else if IdOf(points[0]) != id {
        forall i | 0 <= i < |points| ensures IdOf(points[i]) != id {
          assert i > 0 ==> points[i] == rest[i - 1];
        }
      }
      if i :| 0 <= i < |points| && IdOf(points[i]) == id {
        assert i > 0 ==> rest[i - 1] == points[i];
      }
    }
  }

  lemma NumberedUpsert(points: seq<Point>, path: Path)
    requires forall i :: 0 <= i < |points| ==> IdOf(points[i]) == (path, i)
    ensures forall id :: id in Upsert(map[], points) <==> id.0 == path && id.1 < |points|
    ensures forall i: nat :: i < |points| ==> Upsert(map[], points)[(path, i)] == points[i]
  {
    forall id: Id
      ensures id in Upsert(map[], points) <==> id.0 == path && id.1 < |points|
      ensures id.0 == path && id.1 < |points| ==> Upsert(map[], points)[id] == points[id.1]
    {
      UpsertLookup(map[], points, id);
      if id.0 == path && id.1 < |points| {
        assert IdOf(points[id.1]) == id;
      }
    }
  }

  lemma ExpectedHoldsChunks(env: Env, path: Path, sha: Sha)
    ensures HoldsChunks(env, Expected(env, path, sha), path, sha)
  {
    NumberedUpsert(CodePoints(env, path, sha), path);
  }

  /** Embedding a path leaves there exactly the chunks of its blob. */
  lemma EmbeddedPathHoldsItsChunks(env: Env, s: Index, path: Path, sha: Sha)
    requires WellKeyed(s.points)
    ensures HoldsChunks(env, At(EmbedPath(env, s, path, sha).points, path), path, sha)
  {
    EmbedPathEffect(env, s, path, sha, path);
    ExpectedHoldsChunks(env, path, sha);
  }

  /** So does a completed pass at every desired path, */
  lemma CompletedPassHoldsTheChunks(env: Env, s: Index, desired: map<Path, Sha>, order: seq<Path>, full: bool,
                                    tip: string, q: Path)
    requires WellKeyed(s.points) && Consistent(env, s) && Enumerates(order, desired) && q in desired
    ensures HoldsChunks(env, At(Pass(env, s, desired, order, full, |order|, tip).points, q), q, desired[q])
  {
    CompletedPassIsExact(env, s, desired, order, full, tip);
    ExpectedHoldsChunks(env, q, desired[q]);
  }

  /** and so do the recorded paths whenever cache and store agree. */
  lemma RecordedPathsHoldTheirChunks(env: Env, s: Index, q: Path)
    requires Consistent(env, s) && q in s.paths
    ensures HoldsChunks(env, At(s.points, q), q, s.paths[q]) && At(s.points, q) != map[]
  {
    ExpectedHoldsChunks(env, q, s.paths[q]);
    assert CodePoints(env, q, s.paths[q]) != [] && At(s.points, q) == Expected(env, q, s.paths[q]);
    assert (q, 0) in At(s.points, q);
  }

  // ------------------------------------------------------------------ a second pass does nothing

  /** How many paths a pass embeds and how many it removes, as the pass reports them. */
  function EmbeddedCount(env: Env, skip: map<Path, Sha>, desired: map<Path, Sha>, order: seq<Path>): nat {
    if order == [] then 0
    else
      var path := order[|order| - 1];
      EmbeddedCount(env, skip, desired, order[..|order| - 1]) +
        if path in desired && !Skips(skip, path, desired[path]) && CodePoints(env, path, desired[path]) != []
        then 1 else 0
  }

  /** The paths a pass embeds chunks of. */
  function Embedded(env: Env, skip: map<Path, Sha>, desired: map<Path, Sha>, order: seq<Path>): set<Path> {
    set p | p in order && p in desired && !Skips(skip, p, desired[p]) && CodePoints(env, p, desired[p]) != []
  }

  lemma EmbeddedNext(env: Env, skip: map<Path, Sha>, desired: map<Path, Sha>, order: seq<Path>)
    requires order != [] && order[|order| - 1] !in order[..|order| - 1]
    ensures var path, before := order[|order| - 1], Embedded(env, skip, desired, order[..|order| - 1]);
            && path !in before
            && Embedded(env, skip, desired, order) ==
                 if path in desired && !Skips(skip, path, desired[path]) && CodePoints(env, path, desired[path]) != []
                 then before + {path} else before
  {
    var path := order[|order| - 1];
    forall p ensures p in order <==> p in order[..|order| - 1] || p == path {
      assert order == order[..|order| - 1] + [path];
    }
  }

  /** The reported number counts them. */
  lemma {:induction false} CountIsOfEmbedded(env: Env, skip: map<Path, Sha>, desired: map<Path, Sha>, order: seq<Path>)
    requires forall i, j :: 0 <= i < j < |order| ==> order[i] != order[j]
    ensures EmbeddedCount(env, skip, desired, order) == |Embedded(env, skip, desired, order)|
  {
    if order == [] {
    } else {
      CountIsOfEmbedded(env, skip, desired, order[..|order| - 1]);
      EmbeddedNext(env, skip, desired, order);
    }
  }

  lemma {:induction false} NothingToEmbed(env: Env, s: Index, desired: map<Path, Sha>, order: seq<Path>)
    requires forall q :: q in order ==> q in desired && if CodePoints(env, q, desired[q]) != []
               then q in s.paths && s.paths[q] == desired[q]
               else q !in s.paths && At(s.points, q) == map[]
    ensures EmbedAll(env, s, s.paths, desired, order) == s
    ensures EmbeddedCount(env, s.paths, desired, order) == 0
  {
    if order == [] {
    } else {
      var n := |order| - 1;
      NothingToEmbed(env, s, desired, order[..n]);
      var q := order[n];
      assert q in order;
      if CodePoints(env, q, desired[q]) == [] {
        assert DeleteByPath(s.points, q) == s.points by {
          forall id | id in s.points ensures s.points[id].path != q {
            assert id !in At(s.points, q);
          }
        }
        assert s.paths - {q} == s.paths;
      }
    }
  }

  /** Re-running a pass at the same tip embeds nothing, removes nothing and changes nothing. */
  lemma SecondPassIsIdle(env: Env, s: Index, desired: map<Path, Sha>, order: seq<Path>, full: bool, tip: string)
    requires WellKeyed(s.points) && Consistent(env, s) && Enumerates(order, desired)
    ensures var t := Pass(env, s, desired, order, full, |order|, tip);
            && Pass(env, t, desired, order, false, |order|, tip) == t
            && EmbeddedCount(env, t.paths, desired, order) == 0
            && t.paths.Keys - desired.Keys == {}
  {
    var t := Pass(env, s, desired, order, full, |order|, tip);
    CompletedPassIsExact(env, s, desired, order, full, tip);
    forall q | q in order
      ensures q in desired && if CodePoints(env, q, desired[q]) != []
                then q in t.paths && t.paths[q] == desired[q]
                else q !in t.paths && At(t.points, q) == map[]
    {}
    NothingToEmbed(env, t, desired, order);
    assert order[..|order|] == order;
    assert t.paths.Keys - desired.Keys == {};
    assert DropAll(t, {}).points == t.points && t.paths - {} == t.paths;
  }

  // ------------------------------------------------------------------ documents

  /** A document with the texts it is cut into: its chunks, or its whole body when there are none. */
  datatype DocSource = DocSource(slug: string, title: string, texts: seq<Raw>)

  function DocPointsFrom(doc: DocSource): seq<Point> {
    seq(|doc.texts|, i requires 0 <= i < |doc.texts| =>
      Point(Doc, DocVirtualPath(doc.slug), i, doc.title, doc.texts[i]))
  }

  function DocPoints(docs: seq<DocSource>): seq<Point> {
    if docs == [] then [] else DocPointsFrom(docs[0]) + DocPoints(docs[1..])
  }

  /** Full replacement of the documents; embedding may raise after the old ones are gone. */
  function EmbedDocs(s: Index, docs: seq<DocSource>, raised: bool): Index {
    var cleared := DeleteByType(s.points, Doc);
    s.(points := if raised then cleared else Upsert(cleared, DocPoints(docs)))
  }

  lemma {:induction false} DocPointsAreDocs(docs: seq<DocSource>, i: nat)
    requires i < |DocPoints(docs)|
    ensures DocPoints(docs)[i].kind == Doc && IsDocPath(DocPoints(docs)[i].path)
  {
    var n := |DocPointsFrom(docs[0])|;
    DocPathsAreDocPaths(docs[0].slug);
    if i >= n {
      DocPointsAreDocs(docs[1..], i - n);
    }
  }

  ghost predicate DistinctDocs(docs: seq<DocSource>) {
    forall i, j :: 0 <= i < j < |docs| ==> docs[i].slug != docs[j].slug
  }

  /** The point of text `i` of document `k`. */
  function DocPoint(docs: seq<DocSource>, k: nat, i: nat): Point
    requires k < |docs| && i < |docs[k].texts|
  {
    Point(Doc, DocVirtualPath(docs[k].slug), i, docs[k].title, docs[k].texts[i])
  }

  lemma {:induction false} DocPointIsWritten(docs: seq<DocSource>, k: nat, i: nat)
    requires k < |docs| && i < |docs[k].texts|
    ensures DocPoint(docs, k, i) in DocPoints(docs)
  {
    if k == 0 {
      assert DocPointsFrom(docs[0])[i] == DocPoint(docs, 0, i);
      assert DocPointsFrom(docs[0])[i] in DocPoints(docs);
    } else {
      DocPointIsWritten(docs[1..], k - 1, i);
      assert DocPoint(docs[1..], k - 1, i) == DocPoint(docs, k, i);
    }
  }

  lemma {:induction false} WrittenIsADocPoint(docs: seq<DocSource>, j: nat)
    requires j < |DocPoints(docs)|
    ensures exists k: nat, i: nat :: k < |docs| && i < |docs[k].texts| && DocPoints(docs)[j] == DocPoint(docs, k, i)
  {
    var n := |docs[0].texts|;
    if j < n {
      assert DocPoints(docs)[j] == DocPoint(docs, 0, j);
    } else {
      WrittenIsADocPoint(docs[1..], j - n);
      var k: nat, i: nat :| k < |docs[1..]| && i < |docs[1..][k].texts| &&
        DocPoints(docs[1..])[j - n] == DocPoint(docs[1..], k, i);
      assert DocPoint(docs[1..], k, i) == DocPoint(docs, k + 1, i);
    }
  }

  lemma SlugsDecidePaths(a: string, b: string)
    ensures DocVirtualPath(a) == DocVirtualPath(b) ==> a == b
  {
    assert DocVirtualPath(a)[|DOC_PATH_PREFIX|..] == a && DocVirtualPath(b)[|DOC_PATH_PREFIX|..] == b;
  }

  lemma SlugsDecideDocs(docs: seq<DocSource>, i: nat, j: nat)
    requires DistinctDocs(docs) && i < |docs| && j < |docs| && docs[i].slug == docs[j].slug
    ensures i == j
  {}

  lemma SameIdSamePoint(docs: seq<DocSource>, k: nat, i: nat, j: nat)
    requires DistinctDocs(docs) && k < |docs| && i < |docs[k].texts| && j < |DocPoints(docs)|
    requires IdOf(DocPoints(docs)[j]) == IdOf(DocPoint(docs, k, i))
    ensures DocPoints(docs)[j] == DocPoint(docs, k, i)
  {
    WrittenIsADocPoint(docs, j);
    var k': nat, i': nat :| k' < |docs| && i' < |docs[k'].texts| && DocPoints(docs)[j] == DocPoint(docs, k', i');
    SlugsDecidePaths(docs[k].slug, docs[k'].slug);
    SlugsDecideDocs(docs, k, k');
  }

  /** Replacing the documents leaves each text of each document at its document's path under its own
      number, */
  lemma DocsHoldTheirTexts(s: Index, docs: seq<DocSource>, k: nat, i: nat)
    requires DistinctDocs(docs) && k < |docs| && i < |docs[k].texts|
    ensures var t, id := EmbedDocs(s, docs, false).points, (DocVirtualPath(docs[k].slug), i);
            id in t && t[id] == Point(Doc, DocVirtualPath(docs[k].slug), i, docs[k].title, docs[k].texts[i])
  {
    var points, id := DocPoints(docs), (DocVirtualPath(docs[k].slug), i);
    DocPointIsWritten(docs, k, i);
    UpsertLookup(DeleteByType(s.points, Doc), points, id);
    var n :| 0 <= n < |points| && points[n] == DocPoint(docs, k, i);
    assert IdOf(points[n]) == id;
    var j :| 0 <= j < |points| && IdOf(points[j]) == id && EmbedDocs(s, docs, false).points[id] == points[j];
    SameIdSamePoint(docs, k, i, j);
  }

  /** and no other document: the old ones are gone. */
  lemma OnlyNewDocsRemain(s: Index, docs: seq<DocSource>, raised: bool, id: Id)
    requires id in OfType(EmbedDocs(s, docs, raised).points, Doc)
    ensures !raised && exists k: nat, i: nat :: k < |docs| && i < |docs[k].texts| && id == IdOf(DocPoint(docs, k, i))
  {
    var points, cleared := DocPoints(docs), DeleteByType(s.points, Doc);
    UpsertLookup(cleared, points, id);
    var j :| 0 <= j < |points| && IdOf(points[j]) == id && EmbedDocs(s, docs, raised).points[id] == points[j];
    WrittenIsADocPoint(docs, j);
  }

  /** Embedding documents leaves the code points alone exactly when no code point sits at the id of
      a document point; in particular when no repo path starts with the document prefix. */
  lemma DocsSpareCode(s: Index, docs: seq<DocSource>)
    ensures OfType(EmbedDocs(s, docs, false).points, Code) == OfType(s.points, Code)
       <==> forall i :: 0 <= i < |DocPoints(docs)| ==> IdOf(DocPoints(docs)[i]) !in OfType(s.points, Code)
  {
    var points := DocPoints(docs);
    var cleared := DeleteByType(s.points, Doc);
    var t := EmbedDocs(s, docs, false).points;
    assert OfType(cleared, Code) == OfType(s.points, Code);
    forall i | 0 <= i < |points| ensures IdOf(points[i]) !in OfType(t, Code) {
      UpsertLookup(cleared, points, IdOf(points[i]));
      if j :| 0 <= j < |points| && IdOf(points[j]) == IdOf(points[i]) && t[IdOf(points[i])] == points[j] {
        DocPointsAreDocs(docs, j);
      }
    }
    if forall i :: 0 <= i < |points| ==> IdOf(points[i]) !in OfType(s.points, Code) {
      forall id ensures id in OfType(t, Code) <==> id in OfType(s.points, Code)
                ensures id in OfType(t, Code) ==> t[id] == s.points[id]
      {
        UpsertLookup(cleared, points, id);
        if id in t && exists j :: 0 <= j < |points| && IdOf(points[j]) == id && t[id] == points[j] {
          var j :| 0 <= j < |points| && IdOf(points[j]) == id && t[id] == points[j];
          DocPointsAreDocs(docs, j);
        }
      }
    }
  }

  /** No code is stored or desired under the document prefix. */
  ghost predicate PrefixFree(s: Index) {
    && (forall id :: id in s.points && s.points[id].kind == Code ==> !IsDocPath(s.points[id].path))
    && (forall id :: id in s.points && s.points[id].kind == Doc ==> IsDocPath(s.points[id].path))
    && (forall p :: p in s.paths ==> !IsDocPath(p))
  }

  lemma DocsKeepPaths(s: Index, docs: seq<DocSource>, raised: bool, q: Path)
    requires WellKeyed(s.points) && PrefixFree(s)
    ensures var t := EmbedDocs(s, docs, raised);
            WellKeyed(t.points) && PrefixFree(t) && (!IsDocPath(q) ==> At(t.points, q) == At(s.points, q))
  {
    var points := DocPoints(docs);
    var cleared := DeleteByType(s.points, Doc);
    var t := EmbedDocs(s, docs, raised);
    assert !IsDocPath(q) ==> At(cleared, q) == At(s.points, q);
    UpsertKeyed(cleared, points);
    if !raised {
      forall id | id in t.points
        ensures t.points[id].kind == Code ==> !IsDocPath(t.points[id].path)
        ensures t.points[id].kind == Doc ==> IsDocPath(t.points[id].path)
        ensures !IsDocPath(t.points[id].path) ==> id in cleared && t.points[id] == cleared[id]
      {
        UpsertLookup(cleared, points, id);
        if exists j :: 0 <= j < |points| && IdOf(points[j]) == id && t.points[id] == points[j] {
          var j :| 0 <= j < |points| && IdOf(points[j]) == id && t.points[id] == points[j];
          DocPointsAreDocs(docs, j);
        }
      }
      if !IsDocPath(q) {
        forall id | id in At(cleared, q) ensures id in At(t.points, q) && t.points[id] == cleared[id] {
          UpsertLookup(cleared, points, id);
          forall j | 0 <= j < |points| ensures IdOf(points[j]) != id {
            DocPointsAreDocs(docs, j);
          }
        }
        assert At(t.points, q) == At(cleared, q);
      }
    }
  }

  lemma ExpectedIsCode(env: Env, path: Path, sha: Sha, id: Id)
    requires id in Expected(env, path, sha)
    ensures Expected(env, path, sha)[id].kind == Code && Expected(env, path, sha)[id].path == path
  {
    UpsertLookup(map[], CodePoints(env, path, sha), id);
  }

  lemma ExpectedIsAllCode(env: Env, path: Path, sha: Sha)
    ensures OfType(Expected(env, path, sha), Code) == Expected(env, path, sha)
  {
    forall id | id in Expected(env, path, sha) ensures Expected(env, path, sha)[id].kind == Code {
      ExpectedIsCode(env, path, sha, id);
    }
  }

  lemma NoDocsExpected(env: Env, path: Path, sha: Sha, id: Id)
    ensures id in Expected(env, path, sha) ==> Expected(env, path, sha)[id].kind != Doc
  {
    if id in Expected(env, path, sha) {
      ExpectedIsCode(env, path, sha, id);
    }
  }

  /** No point of a document lies at a recorded path. */
  ghost predicate Apart(s: Index, docs: seq<DocSource>) {
    forall i :: 0 <= i < |DocPoints(docs)| ==> DocPoints(docs)[i].path !in s.paths
  }

  lemma UpsertElsewhere(store: Store, points: seq<Point>, q: Path)
    requires WellKeyed(store) && forall i :: 0 <= i < |points| ==> points[i].path != q
    ensures At(Upsert(store, points), q) == At(store, q)
  {
    UpsertKeyed(store, points);
    forall id: Id | id.0 == q
      ensures id in Upsert(store, points) <==> id in store
      ensures id in store ==> Upsert(store, points)[id] == store[id]
    {
      UpsertLookup(store, points, id);
    }
  }

  lemma DocTakesItsPlace(s: Index, docs: seq<DocSource>, i: nat)
    requires i < |DocPoints(docs)|
    ensures var t, id := EmbedDocs(s, docs, false).points, IdOf(DocPoints(docs)[i]);
            id in t && t[id].kind == Doc && t[id].path == id.0
  {
    var points := DocPoints(docs);
    var t := EmbedDocs(s, docs, false).points;
    var id := IdOf(points[i]);
    UpsertLookup(DeleteByType(s.points, Doc), points, id);
    var j :| 0 <= j < |points| && IdOf(points[j]) == id && t[id] == points[j];
    DocPointsAreDocs(docs, j);
  }

  lemma DocsSpareRecorded(env: Env, s: Index, docs: seq<DocSource>, raised: bool, p: Path)
    requires WellKeyed(s.points) && Consistent(env, s) && (raised || Apart(s, docs)) && p in s.paths
    ensures At(EmbedDocs(s, docs, raised).points, p) == At(s.points, p)
  {
    var cleared := DeleteByType(s.points, Doc);
    assert At(cleared, p) == At(s.points, p) by {
      forall id | id in At(s.points, p) ensures s.points[id].kind == Code {
        ExpectedIsCode(env, p, s.paths[p], id);
        assert At(s.points, p)[id] == s.points[id];
      }
    }
    if !raised {
      UpsertElsewhere(cleared, DocPoints(docs), p);
    }
  }

  /** Replacing the documents keeps cache and store in agreement exactly when embedding them raised or
      none of them lies at a recorded path. */
  lemma DocsKeepConsistentIff(env: Env, s: Index, docs: seq<DocSource>, raised: bool)
    requires WellKeyed(s.points) && Consistent(env, s)
    ensures Consistent(env, EmbedDocs(s, docs, raised)) <==> raised || Apart(s, docs)
    ensures WellKeyed(EmbedDocs(s, docs, raised).points)
    ensures EmbedDocs(s, docs, raised).paths == s.paths && EmbedDocs(s, docs, raised).commit == s.commit
  {
    var t := EmbedDocs(s, docs, raised);
    UpsertKeyed(DeleteByType(s.points, Doc), DocPoints(docs));
    if raised || Apart(s, docs) {
      forall p | p in t.paths
        ensures CodePoints(env, p, t.paths[p]) != [] && At(t.points, p) == Expected(env, p, t.paths[p])
      {
        DocsSpareRecorded(env, s, docs, raised, p);
      }
    } else {
      var i :| 0 <= i < |DocPoints(docs)| && DocPoints(docs)[i].path in s.paths;
      var id := IdOf(DocPoints(docs)[i]);
      DocTakesItsPlace(s, docs, i);
      assert id in At(t.points, id.0);
      NoDocsExpected(env, id.0, s.paths[id.0], id);
      assert At(t.points, id.0) != Expected(env, id.0, s.paths[id.0]);
    }
  }

  // ------------------------------------------------------------------ whole histories

  datatype Event =
    | Reconciled(desired: map<Path, Sha>, order: seq<Path>, full: bool, reached: nat, tip: string)
    | Documented(docs: seq<DocSource>, raised: bool)
    | Restarted  // the process dies: the cache is gone, the store stays

  ghost predicate Admissible(ev: Event) {
    ev.Reconciled? ==> Enumerates(ev.order, ev.desired) && ev.reached <= |ev.order|
  }

  /** A tree with no path under the document prefix. */
  ghost predicate Unprefixed(ev: Event) { ev.Reconciled? ==> forall p :: p in ev.desired ==> !IsDocPath(p) }

  ghost function After(env: Env, events: seq<Event>): Index
    requires forall i :: 0 <= i < |events| ==> Admissible(events[i])
  {
    if events == [] then EMPTY
    else
      var s := After(env, events[..|events| - 1]);
      assert Admissible(events[|events| - 1]);
      match events[|events| - 1]
      case Reconciled(desired, order, full, reached, tip) => Pass(env, s, desired, order, full, reached, tip)
      case Documented(docs, raised) => EmbedDocs(s, docs, raised)
      case Restarted => s.(paths := map[], commit := None)
  }

  ghost predicate Inv(env: Env, s: Index) { WellKeyed(s.points) && Consistent(env, s) && PrefixFree(s) }

  /** The documents among the points of one path. */
  lemma DocsAt(store: Store, id: Id)
    requires WellKeyed(store)
    ensures id in OfType(store, Doc) <==> id in At(store, id.0) && At(store, id.0)[id].kind == Doc
  {}

  lemma PassLeavesDoc(env: Env, s: Index, desired: map<Path, Sha>, order: seq<Path>, full: bool, reached: nat,
                      tip: string, id: Id)
    requires WellKeyed(s.points) && Consistent(env, s) && Enumerates(order, desired) && reached <= |order|
    ensures var t := Pass(env, s, desired, order, full, reached, tip);
            && (id in OfType(t.points, Doc) <==> id in OfType(s.points, Doc) && id.0 !in order[..reached])
            && (id in OfType(t.points, Doc) ==> t.points[id] == s.points[id])
  {
    var t, q := Pass(env, s, desired, order, full, reached, tip), id.0;
    PassPoints(env, s, desired, order, full, reached, tip, q);
    DocsAt(s.points, id);
    DocsAt(t.points, id);
    if q in order[..reached] {
      NoDocsExpected(env, q, desired[q], id);
    } else if q in s.paths {
      NoDocsExpected(env, q, s.paths[q], id);
      assert reached == |order| ==> order[..reached] == order;
    } else {
      assert reached == |order| ==> order[..reached] == order;
      assert At(t.points, q) == At(s.points, q);
    }
  }

  /** A pass, completed or raised, leaves the documents alone exactly when none lies at a path it
      has gone through. */
  lemma PassSparesDocs(env: Env, s: Index, desired: map<Path, Sha>, order: seq<Path>, full: bool, reached: nat,
                       tip: string)
    requires WellKeyed(s.points) && Consistent(env, s) && Enumerates(order, desired) && reached <= |order|
    ensures OfType(Pass(env, s, desired, order, full, reached, tip).points, Doc) == OfType(s.points, Doc)
       <==> forall id :: id in s.points && s.points[id].kind == Doc ==> s.points[id].path !in order[..reached]
  {
    var t := Pass(env, s, desired, order, full, reached, tip);
    forall id
      ensures id in OfType(t.points, Doc) <==> id in OfType(s.points, Doc) && id.0 !in order[..reached]
      ensures id in OfType(t.points, Doc) ==> t.points[id] == s.points[id]
    {
      PassLeavesDoc(env, s, desired, order, full, reached, tip, id);
    }
    if OfType(t.points, Doc) == OfType(s.points, Doc) {
      forall id | id in s.points && s.points[id].kind == Doc ensures s.points[id].path !in order[..reached] {
        assert id in OfType(s.points, Doc);
      }
    }
  }

  lemma PassKeepsPrefixFree(env: Env, s: Index, desired: map<Path, Sha>, order: seq<Path>, full: bool, reached: nat,
                            tip: string)
    requires Inv(env, s) && Enumerates(order, desired) && reached <= |order|
    requires forall p :: p in desired ==> !IsDocPath(p)
    ensures PrefixFree(Pass(env, s, desired, order, full, reached, tip))
  {
    var t := Pass(env, s, desired, order, full, reached, tip);
    assert order[..|order|] == order;
    forall id | id in t.points
      ensures t.points[id].kind == Code ==> !IsDocPath(t.points[id].path)
      ensures t.points[id].kind == Doc ==> IsDocPath(t.points[id].path)
    {
      var q := t.points[id].path;
      PassEffect(env, s, desired, order, full, reached, tip, q);
      assert id in At(t.points, q);
      if q in order[..reached] {
        ExpectedIsCode(env, q, desired[q], id);
        assert q in order;
      } else {
        assert id in At(s.points, q);
      }
    }
    forall p | p in t.paths ensures !IsDocPath(p) {
      PassEffect(env, s, desired, order, full, reached, tip, p);
      assert p in order[..reached] ==> p in order;
    }
  }

  // ------------------------------------------------------------------ cache and store agree

  /** Cache and store agree after every event of a history. */
  ghost predicate AgreesThroughout(env: Env, events: seq<Event>)
    requires forall i :: 0 <= i < |events| ==> Admissible(events[i])
  {
    Consistent(env, After(env, events)) && (events == [] || AgreesThroughout(env, events[..|events| - 1]))
  }

  /** No document was ever embedded at a path that was recorded then. */
  ghost predicate DocsApart(env: Env, events: seq<Event>)
    requires forall i :: 0 <= i < |events| ==> Admissible(events[i])
  {
    events == [] ||
    var before, ev := events[..|events| - 1], events[|events| - 1];
    DocsApart(env, before) && (ev.Documented? && !ev.raised ==> Apart(After(env, before), ev.docs))
  }

  lemma {:induction false} HistoryIsKeyed(env: Env, events: seq<Event>)
    requires forall i :: 0 <= i < |events| ==> Admissible(events[i])
    ensures WellKeyed(After(env, events).points)
  {
    if events == [] {
    } else {
      var n := |events| - 1;
      HistoryIsKeyed(env, events[..n]);
      var s := After(env, events[..n]);
      assert Admissible(events[n]);
      match events[n]
      case Reconciled(desired, order, full, reached, tip) => PassAt(env, s, desired, order, full, reached, tip, "");
      case Documented(docs, raised) => UpsertKeyed(DeleteByType(s.points, Doc), DocPoints(docs));
      case Restarted =>
    }
  }

  /** Whatever passes completed or raised, at whatever tips, with documents replaced and the process
      restarted in between: what the cache records is what the store holds all the while, exactly
      when no document was embedded at a recorded path. */
  lemma {:induction false} EveryHistoryAgrees(env: Env, events: seq<Event>)
    requires forall i :: 0 <= i < |events| ==> Admissible(events[i])
    ensures AgreesThroughout(env, events) <==> DocsApart(env, events)
  {
    if events == [] {
    } else {
      var n := |events| - 1;
      EveryHistoryAgrees(env, events[..n]);
      HistoryIsKeyed(env, events[..n]);
      var s := After(env, events[..n]);
      if AgreesThroughout(env, events[..n]) {
        assert Admissible(events[n]) && Consistent(env, s);
        match events[n]
        case Reconciled(desired, order, full, reached, tip) =>
          PassKeepsConsistent(env, s, desired, order, full, reached, tip);
        case Documented(docs, raised) => DocsKeepConsistentIff(env, s, docs, raised);
        case Restarted =>
      }
    }
  }

  lemma PrefixFreeMeansApart(s: Index, docs: seq<DocSource>)
    requires PrefixFree(s)
    ensures Apart(s, docs)
  {
    forall i | 0 <= i < |DocPoints(docs)| ensures DocPoints(docs)[i].path !in s.paths {
      DocPointsAreDocs(docs, i);
    }
  }

  /** So it is when no tree has a path under the document prefix: code and documents never meet. */
  lemma {:induction false} UnprefixedHistoryAgrees(env: Env, events: seq<Event>)
    requires forall i :: 0 <= i < |events| ==> Admissible(events[i]) && Unprefixed(events[i])
    ensures Inv(env, After(env, events)) && DocsApart(env, events) && AgreesThroughout(env, events)
  {
    if events == [] {
    } else {
      var n := |events| - 1;
      UnprefixedHistoryAgrees(env, events[..n]);
      var s := After(env, events[..n]);
      assert Admissible(events[n]) && Unprefixed(events[n]);
      HistoryIsKeyed(env, events);
      EveryHistoryAgrees(env, events);
      match events[n]
      case Reconciled(desired, order, full, reached, tip) =>
        PassKeepsPrefixFree(env, s, desired, order, full, reached, tip);
      case Documented(docs, raised) =>
        DocsKeepPaths(s, docs, raised, "");
        PrefixFreeMeansApart(s, docs);
      case Restarted =>
    }
  }

  // ------------------------------------------------------------------ the index and the tip

  function CodeAt(store: Store, q: Path): Store { OfType(At(store, q), Code) }

  /** The code in the store is that of this tree and nothing else. */
  ghost predicate HoldsExactly(env: Env, store: Store, desired: map<Path, Sha>) {
    forall q :: CodeAt(store, q) == if q in desired then Expected(env, q, desired[q]) else map[]
  }

  /** Stored code the cache does not know of, outside the tree. */
  ghost predicate Orphaned(s: Index, desired: map<Path, Sha>, q: Path) {
    CodeAt(s.points, q) != map[] && q !in s.paths && q !in desired
  }

  /** The code a completed pass leaves at `q` when cache and store agreed before. */
  lemma ExactCodeAt(env: Env, s: Index, desired: map<Path, Sha>, order: seq<Path>, full: bool, tip: string, q: Path)
    requires WellKeyed(s.points) && Consistent(env, s) && Enumerates(order, desired)
    ensures CodeAt(Pass(env, s, desired, order, full, |order|, tip).points, q) ==
              if q in desired then Expected(env, q, desired[q]) else if q in s.paths then map[] else CodeAt(s.points, q)
  {
    CompletedPassIsExact(env, s, desired, order, full, tip);
    if q in desired {
      ExpectedIsAllCode(env, q, desired[q]);
    }
  }

  /** A completed pass leaves the store holding exactly the tip's code if and only if nothing
      outside the tip was stored without being recorded. */
  lemma ExactIffNoOrphans(env: Env, s: Index, desired: map<Path, Sha>, order: seq<Path>, full: bool, tip: string)
    requires WellKeyed(s.points) && Consistent(env, s) && Enumerates(order, desired)
    ensures HoldsExactly(env, Pass(env, s, desired, order, full, |order|, tip).points, desired)
       <==> !exists q :: Orphaned(s, desired, q)
  {
    var t := Pass(env, s, desired, order, full, |order|, tip);
    forall q
      ensures Orphaned(s, desired, q) <==>
              CodeAt(t.points, q) != if q in desired then Expected(env, q, desired[q]) else map[]
    {
      ExactCodeAt(env, s, desired, order, full, tip, q);
    }
  }

  ghost predicate AllRecorded(s: Index) { forall q :: CodeAt(s.points, q) != map[] ==> q in s.paths }

  lemma PassRecordsAll(env: Env, s: Index, desired: map<Path, Sha>, order: seq<Path>, full: bool, reached: nat,
                       tip: string)
    requires WellKeyed(s.points) && AllRecorded(s) && Enumerates(order, desired) && reached <= |order|
    ensures AllRecorded(Pass(env, s, desired, order, full, reached, tip))
  {
    var t := Pass(env, s, desired, order, full, reached, tip);
    forall q | CodeAt(t.points, q) != map[] ensures q in t.paths {
      PassAt(env, s, desired, order, full, reached, tip, q);
    }
  }

  lemma DocsRecordAll(s: Index, docs: seq<DocSource>, raised: bool)
    requires AllRecorded(s)
    ensures AllRecorded(EmbedDocs(s, docs, raised))
  {
    var t, cleared := EmbedDocs(s, docs, raised), DeleteByType(s.points, Doc);
    forall q | CodeAt(t.points, q) != map[] ensures q in t.paths {
      var id :| id in CodeAt(t.points, q);
      if !raised {
        UpsertLookup(cleared, DocPoints(docs), id);
        if j :| 0 <= j < |DocPoints(docs)| && IdOf(DocPoints(docs)[j]) == id && t.points[id] == DocPoints(docs)[j] {
          DocPointsAreDocs(docs, j);
        }
      }
      assert id in CodeAt(s.points, q);
    }
  }

  lemma {:induction false} UnbrokenHistoryRecordsAll(env: Env, events: seq<Event>)
    requires forall i :: 0 <= i < |events| ==> Admissible(events[i]) && !events[i].Restarted?
    ensures AllRecorded(After(env, events))
  {
    if events == [] {
    } else {
      var n := |events| - 1;
      UnbrokenHistoryRecordsAll(env, events[..n]);
      HistoryIsKeyed(env, events[..n]);
      assert Admissible(events[n]) && !events[n].Restarted?;
      if events[n].Reconciled? {
        var e := events[n];
        PassRecordsAll(env, After(env, events[..n]), e.desired, e.order, e.full, e.reached, e.tip);
      } else {
        DocsRecordAll(After(env, events[..n]), events[n].docs, events[n].raised);
      }
    }
  }

  lemma CodeByPath(a: Store, b: Store)
    ensures OfType(a, Code) == OfType(b, Code) <==> forall q :: CodeAt(a, q) == CodeAt(b, q)
  {
    if forall q :: CodeAt(a, q) == CodeAt(b, q) {
      forall id | id in OfType(a, Code) ensures id in b && a[id] == b[id] {
        assert id in CodeAt(a, a[id].path) && id in CodeAt(b, a[id].path);
      }
      forall id | id in OfType(b, Code) ensures id in a && a[id] == b[id] {
        assert id in CodeAt(b, b[id].path) && id in CodeAt(a, b[id].path);
      }
    }
    if OfType(a, Code) == OfType(b, Code) {
      forall q ensures CodeAt(a, q) == CodeAt(b, q) {
        assert forall id :: id in CodeAt(a, q) <==> id in OfType(a, Code) && OfType(a, Code)[id].path == q;
        assert forall id :: id in CodeAt(b, q) <==> id in OfType(b, Code) && OfType(b, Code)[id].path == q;
      }
    }
  }

  /** Every path that an incremental pass would skip still has the code of its blob. */
  ghost predicate Intact(env: Env, s: Index, desired: map<Path, Sha>) {
    forall q :: q in desired && Skips(s.paths, q, desired[q]) ==> CodeAt(s.points, q) == Expected(env, q, desired[q])
  }

  /** The code a completed pass leaves at `q` when all stored code is recorded. */
  lemma PassCodeAt(env: Env, s: Index, desired: map<Path, Sha>, order: seq<Path>, full: bool, tip: string, q: Path)
    requires WellKeyed(s.points) && AllRecorded(s) && Enumerates(order, desired)
    ensures var t := Pass(env, s, desired, order, full, |order|, tip);
            CodeAt(t.points, q) == if q !in desired then map[]
                                   else if !full && Skips(s.paths, q, desired[q]) then CodeAt(s.points, q)
                                   else Expected(env, q, desired[q])
  {
    PassAt(env, s, desired, order, full, |order|, tip, q);
    assert order[..|order|] == order;
    if q in desired {
      ExpectedIsAllCode(env, q, desired[q]);
    }
  }

  /** Two completed passes, one of them from nothing, agree at `q` unless `q` is skipped and spoilt. */
  lemma SameCodeAtIff(env: Env, s: Index, desired: map<Path, Sha>, order: seq<Path>, full: bool, tip: string, q: Path)
    requires WellKeyed(s.points) && AllRecorded(s) && Enumerates(order, desired)
    ensures CodeAt(Pass(env, s, desired, order, full, |order|, tip).points, q)
            == CodeAt(Pass(env, EMPTY, desired, order, false, |order|, tip).points, q)
       <==> (q in desired && !full && Skips(s.paths, q, desired[q]) ==>
             CodeAt(s.points, q) == Expected(env, q, desired[q]))
  {
    assert forall p :: CodeAt(EMPTY.points, p) == map[];
    PassCodeAt(env, s, desired, order, full, tip, q);
    PassCodeAt(env, EMPTY, desired, order, false, tip, q);
  }

  /** The index is a pure function of the tip: after a history without a restart, a completed pass
      leaves the same code points as indexing that tip from nothing, exactly when it is a full one
      or the paths it skips are intact. */
  lemma IndexIsFunctionOfTipIff(env: Env, events: seq<Event>, desired: map<Path, Sha>, order: seq<Path>, full: bool,
                                tip: string)
    requires forall i :: 0 <= i < |events| ==> Admissible(events[i]) && !events[i].Restarted?
    requires Enumerates(order, desired)
    ensures OfType(Pass(env, After(env, events), desired, order, full, |order|, tip).points, Code)
            == OfType(Pass(env, EMPTY, desired, order, false, |order|, tip).points, Code)
       <==> full || Intact(env, After(env, events), desired)
  {
    var s := After(env, events);
    var t := Pass(env, s, desired, order, full, |order|, tip);
    var anew := Pass(env, EMPTY, desired, order, false, |order|, tip);
    HistoryIsKeyed(env, events);
    UnbrokenHistoryRecordsAll(env, events);
    forall q
      ensures CodeAt(t.points, q) == CodeAt(anew.points, q) <==>
              (q in desired && !full && Skips(s.paths, q, desired[q]) ==>
                CodeAt(s.points, q) == Expected(env, q, desired[q]))
    {
      SameCodeAtIff(env, s, desired, order, full, tip, q);
    }
    CodeByPath(t.points, anew.points);
  }

  /** So it is whenever no document was embedded at a recorded path. */
  lemma IndexIsFunctionOfTip(env: Env, events: seq<Event>, desired: map<Path, Sha>, order: seq<Path>, full: bool,
                             tip: string)
    requires forall i :: 0 <= i < |events| ==> Admissible(events[i]) && !events[i].Restarted?
    requires Enumerates(order, desired) && DocsApart(env, events)
    ensures OfType(Pass(env, After(env, events), desired, order, full, |order|, tip).points, Code)
         == OfType(Pass(env, EMPTY, desired, order, false, |order|, tip).points, Code)
  {
    var s := After(env, events);
    EveryHistoryAgrees(env, events);
    assert Consistent(env, s);
    forall q | q in desired && Skips(s.paths, q, desired[q])
      ensures CodeAt(s.points, q) == Expected(env, q, desired[q])
    {
      ExpectedIsAllCode(env, q, desired[q]);
    }
    IndexIsFunctionOfTipIff(env, events, desired, order, full, tip);
  }

  lemma FirstPoint(env: Env, path: Path, sha: Sha)
    requires CodePoints(env, path, sha) != []
    ensures (path, 0) in Expected(env, path, sha)
  {
    assert IdOf(CodePoints(env, path, sha)[0]) == (path, 0);
    UpsertLookup(map[], CodePoints(env, path, sha), (path, 0));
  }

  /** One pass over one path from nothing. */
  lemma BuiltOnce(env: Env, path: Path, sha: Sha, tip: string)
    requires CodePoints(env, path, sha) != []
    ensures var built := Reconciled(map[path := sha], [path], false, 1, tip); var t := After(env, [built]);
            && Admissible(built) && WellKeyed(t.points)
            && t.paths == map[path := sha] && At(t.points, path) == Expected(env, path, sha)
  {
    var built := Reconciled(map[path := sha], [path], false, 1, tip);
    assert [built][..0] == [];
    assert After(env, []) == EMPTY;
    CompletedPassIsExact(env, EMPTY, map[path := sha], [path], false, tip);
  }

  /** It is not when a document takes the place of a repository file under the document prefix: the
      file's code is gone, and indexing the same tip again does not bring it back. */
  lemma DocsCanHideCode(env: Env, doc: DocSource, sha: Sha, tip: string)
    requires CodePoints(env, DocVirtualPath(doc.slug), sha) != [] && doc.texts != []
    ensures var tree, order := map[DocVirtualPath(doc.slug) := sha], [DocVirtualPath(doc.slug)];
            var built := Reconciled(tree, order, false, 1, tip);
            && Admissible(built)
            && var s := After(env, [built, Documented([doc], false)]);
               && OfType(s.points, Code) != OfType(After(env, [built]).points, Code)
               && OfType(Pass(env, s, tree, order, false, 1, tip).points, Code)
                  != OfType(Pass(env, EMPTY, tree, order, false, 1, tip).points, Code)
  {
    var path := DocVirtualPath(doc.slug);
    var built := Reconciled(map[path := sha], [path], false, 1, tip);
    var events := [built, Documented([doc], false)];
    BuiltOnce(env, path, sha, tip);
    FirstPoint(env, path, sha);
    ExpectedIsCode(env, path, sha, (path, 0));
    assert events[..1] == [built];
    var before, s := After(env, [built]), After(env, events);
    assert s == EmbedDocs(before, [doc], false);
    assert DocPoints([doc])[0] == DocPointsFrom(doc)[0] && IdOf(DocPoints([doc])[0]) == (path, 0);
    DocTakesItsPlace(before, [doc], 0);
    assert (path, 0) in At(before.points, path) && (path, 0) in OfType(before.points, Code);
    assert (path, 0) !in OfType(s.points, Code);
    assert s.paths == map[path := sha] && Skips(s.paths, path, sha);
    assert (path, 0) !in CodeAt(s.points, path);
    IndexIsFunctionOfTipIff(env, events, map[path := sha], [path], false, tip);
  }

  /** After a restart it is not: a path indexed before and gone from the tip since is never removed,
      because the removal loop walks the cache and the cache is empty. */
  lemma RestartKeepsVanishedPaths(env: Env, path: Path, sha: Sha, tip: string)
    requires CodePoints(env, path, sha) != []
    ensures var built := Reconciled(map[path := sha], [path], false, 1, tip);
            && Admissible(built)
            && var s := After(env, [built, Restarted]);
               At(Pass(env, s, map[], [], true, 0, tip).points, path) == Expected(env, path, sha) != map[]
  {
    var built := Reconciled(map[path := sha], [path], false, 1, tip);
    var events := [built, Restarted];
    BuiltOnce(env, path, sha, tip);
    FirstPoint(env, path, sha);
    assert events[..1] == [built];
    var t, s := After(env, [built]), After(env, events);
    assert s == t.(paths := map[], commit := None);
    CompletedPassIsExact(env, s, map[], [], true, tip);
  }

  // ------------------------------------------------------------------ the pipeline, in place

  datatype TreeEntry = TreeEntry(path: Path, isBlob: bool, sha: Sha)

  predicate Wanted(env: Env, e: TreeEntry) { e.isBlob && Glob.IncludedCode(env.filter, e.path) }

  /** The dict comprehension over the tree: included blobs, a later entry replacing an earlier one. */
  function Desired(env: Env, entries: seq<TreeEntry>): map<Path, Sha> {
    if entries == [] then map[]
    else
      var e := entries[|entries| - 1];
      var before := Desired(env, entries[..|entries| - 1]);
      if Wanted(env, e) then before[e.path := e.sha] else before
  }

  /** The desired paths in the order they first come in, which is the order of the dict. */
  function DesiredOrder(env: Env, entries: seq<TreeEntry>): seq<Path> {
    if entries == [] then []
    else
      var e, before := entries[|entries| - 1], entries[..|entries| - 1];
      DesiredOrder(env, before) + if Wanted(env, e) && e.path !in Desired(env, before) then [e.path] else []
  }

  /** What is desired is what the filter is for, on trees of newline-free paths. */
  lemma {:induction false} DesiredIsWhatIsIncluded(env: Env, entries: seq<TreeEntry>, path: Path)
    requires '\n' !in path
    ensures path in Desired(env, entries) <==>
            && Glob.Included(env.filter, path)
            && exists i :: 0 <= i < |entries| && entries[i].isBlob && entries[i].path == path
  {
    if entries == [] {
    } else {
      var n := |entries| - 1;
      var before := entries[..n];
      DesiredIsWhatIsIncluded(env, before, path);
      Glob.IncludedCodeMeansIncluded(env.filter, path);
      assert forall i :: 0 <= i < n ==> entries[i] == before[i];
    }
  }

  /** Each desired path is wanted at the blob of the last entry of it that is. */
  lemma {:induction false} DesiredIsTheLastEntry(env: Env, entries: seq<TreeEntry>, i: nat)
    requires i < |entries| && Wanted(env, entries[i])
    requires forall j :: i < j < |entries| && Wanted(env, entries[j]) ==> entries[j].path != entries[i].path
    ensures var desired := Desired(env, entries);
            entries[i].path in desired && desired[entries[i].path] == entries[i].sha
  {
    var n := |entries| - 1;
    if i < n {
      assert forall j :: 0 <= j < n ==> entries[..n][j] == entries[j];
      DesiredIsTheLastEntry(env, entries[..n], i);
    }
  }

  lemma DropOneMore(s: Index, gone: set<Path>, path: Path)
    ensures DropAll(s, gone + {path}) == Drop(DropAll(s, gone), path)
  {
    assert s.paths - (gone + {path}) == s.paths - gone - {path};
  }

  /** A path that has to be embedded and cannot be. */
  predicate Fails(skip: map<Path, Sha>, desired: map<Path, Sha>, path: Path, failing: set<Path>) {
    path in failing && path in desired && !Skips(skip, path, desired[path])
  }

  lemma EmbedNext(env: Env, s: Index, skip: map<Path, Sha>, desired: map<Path, Sha>, order: seq<Path>, i: nat)
    requires i < |order| && order[i] in desired
    ensures var path, before := order[i], EmbedAll(env, s, skip, desired, order[..i]);
            EmbedAll(env, s, skip, desired, order[..i + 1]) ==
              if Skips(skip, path, desired[path]) then before else EmbedPath(env, before, path, desired[path])
    ensures var path := order[i];
            EmbeddedCount(env, skip, desired, order[..i + 1]) == EmbeddedCount(env, skip, desired, order[..i]) +
              if !Skips(skip, path, desired[path]) && CodePoints(env, path, desired[path]) != [] then 1 else 0
  {
    assert order[..i + 1][..i] == order[..i];
  }

  lemma PassDone(env: Env, s: Index, desired: map<Path, Sha>, order: seq<Path>, full: bool, tip: string)
    ensures var skip := if full then map[] else s.paths;
            Pass(env, s, desired, order, full, |order|, tip) ==
              DropAll(EmbedAll(env, s, skip, desired, order), s.paths.Keys - desired.Keys).(commit := Some(tip))
  {
    assert order[..|order|] == order;
  }

  datatype Outcome = Done(embedded: nat, removed: nat) | Raised

  class Pipeline {
    const env: Env
    var points: Store
    var paths: map<Path, Sha>
    var commit: Option<string>

    ghost function Abs(): Index
      reads this
    {
      Index(points, paths, commit)
    }

    constructor (env: Env)
      ensures this.env == env && Abs() == EMPTY
    {
      this.env := env;
      points, paths, commit := map[], map[], None;
    }

    /** `_embed_path` and the branch on its result; `raises` stands for a failing read or embed. */
    method EmbedOrDrop(path: Path, sha: Sha, raises: bool) returns (count: nat)
      modifies this`points, this`paths
      ensures raises ==> Abs() == old(Abs())
      ensures !raises ==> Abs() == EmbedPath(env, old(Abs()), path, sha) && count == |CodePoints(env, path, sha)|
    {
      count := 0;
      if raises {
        return;
      }
      var content := env.blob(sha);
      var made: seq<Point> := [];
      if |content| <= env.maxFileBytes {
        made := CodePointsFrom(env.chunk(content, path), sha, path);
      }
      count := |made|;
      if count > 0 {
        points := DeleteByPath(points, path);
        points := Upsert(points, made);
        paths := paths[path := sha];
      } else {
        points := DeleteByPath(points, path);
        paths := paths - {path};
      }
    }

    method ListTree(entries: seq<TreeEntry>) returns (desired: map<Path, Sha>, order: seq<Path>)
      ensures desired == Desired(env, entries) && order == DesiredOrder(env, entries) && Enumerates(order, desired)
    {
      desired, order := map[], [];
      for i := 0 to |entries|
        invariant desired == Desired(env, entries[..i]) && order == DesiredOrder(env, entries[..i])
        invariant Enumerates(order, desired)
      {
        var e := entries[i];
        assert entries[..i + 1][..i] == entries[..i];
        if e.isBlob && Glob.IncludedCode(env.filter, e.path) {
          if e.path !in desired {
            order := order + [e.path];
          }
          desired := desired[e.path := e.sha];
        }
      }
      assert entries[..|entries|] == entries;
    }

    /** What a pass over these desired paths in this order did: where it got, what it left, what it
        reports. */
    ghost predicate PassedTo(s: Index, t: Index, desired: map<Path, Sha>, order: seq<Path>, tip: string, full: bool,
                             failing: set<Path>, outcome: Outcome, reached: nat)
    {
      var skip := if full then map[] else s.paths;
      && reached <= |order| && t == Pass(env, s, desired, order, full, reached, tip)
      && (outcome.Raised? <==> reached < |order|)
      && (reached < |order| ==> Fails(skip, desired, order[reached], failing))
      && (forall i :: 0 <= i < reached ==> !Fails(skip, desired, order[i], failing))
      && (outcome.Done? ==>
            && outcome.embedded == EmbeddedCount(env, skip, desired, order)
            && outcome.removed == |s.paths.Keys - desired.Keys|)
    }

    /** The pass: it completes, or raises at the first path in `failing` that it has to embed. */
    method ReconcileTo(entries: seq<TreeEntry>, tip: string, full: bool, failing: set<Path>)
      returns (outcome: Outcome, order: seq<Path>, reached: nat)
      modifies this
      ensures order == DesiredOrder(env, entries) && Enumerates(order, Desired(env, entries))
      ensures PassedTo(old(Abs()), Abs(), Desired(env, entries), order, tip, full, failing, outcome, reached)
    {
      var desired;
      desired, order := ListTree(entries);
      outcome, reached := RunPass(desired, order, tip, full, failing);
    }

    /** The two loops. */
    method RunPass(desired: map<Path, Sha>, order: seq<Path>, tip: string, full: bool, failing: set<Path>)
      returns (outcome: Outcome, reached: nat)
      requires Enumerates(order, desired)
      modifies this
      ensures PassedTo(old(Abs()), Abs(), desired, order, tip, full, failing, outcome, reached)
    {
      var actual := paths;
      var skip := if full then map[] else actual;
      var embedded;
      embedded, reached := EmbedDesired(desired, order, skip, failing);
      if reached < |order| {
        return Raised, reached;
      }
      assert order[..|order|] == order;
      PassDone(env, old(Abs()), desired, order, full, tip);
      var removed := RemoveGone(actual.Keys - desired.Keys);
      commit := Some(tip);
      outcome := Done(embedded, removed);
    }

    /** The embedding loop. */
    method EmbedDesired(desired: map<Path, Sha>, order: seq<Path>, skip: map<Path, Sha>, failing: set<Path>)
      returns (embedded: nat, reached: nat)
      requires Enumerates(order, desired)
      modifies this`points, this`paths
      ensures reached <= |order| && Abs() == EmbedAll(env, old(Abs()), skip, desired, order[..reached])
      ensures embedded == EmbeddedCount(env, skip, desired, order[..reached])
      ensures reached < |order| ==> Fails(skip, desired, order[reached], failing)
      ensures forall i :: 0 <= i < reached ==> !Fails(skip, desired, order[i], failing)
    {
      embedded, reached := 0, 0;
      while reached < |order|
        invariant reached <= |order|
        invariant Abs() == EmbedAll(env, old(Abs()), skip, desired, order[..reached])
        invariant embedded == EmbeddedCount(env, skip, desired, order[..reached])
        invariant forall i :: 0 <= i < reached ==> !Fails(skip, desired, order[i], failing)
      {
        var path := order[reached];
        EmbedNext(env, old(Abs()), skip, desired, order, reached);
        if !(path in skip && skip[path] == desired[path]) {
          var count := EmbedOrDrop(path, desired[path], path in failing);
          if path in failing {
            return;
          }
          if count > 0 {
            embedded := embedded + 1;
          }
        }
        reached := reached + 1;
      }
    }

    /** The removal loop over the recorded paths that the tree no longer has. */
    method RemoveGone(gone: set<Path>) returns (removed: nat)
      modifies this`points, this`paths
      ensures removed == |gone| && Abs() == DropAll(old(Abs()), gone)
    {
      removed := 0;
      var rest := gone;
      assert DropAll(old(Abs()), {}) == old(Abs());
      while rest != {}
        invariant rest <= gone && removed + |rest| == |gone|
        invariant Abs() == DropAll(old(Abs()), gone - rest)
        decreases |rest|
      {
        var path :| path in rest;
        DropOneMore(old(Abs()), gone - rest, path);
        points := DeleteByPath(points, path);
        paths := paths - {path};
        assert gone - (rest - {path}) == gone - rest + {path};
        rest := rest - {path};
        removed := removed + 1;
      }
      assert gone - {} == gone;
    }

    method ReplaceDocs(docs: seq<DocSource>, raises: bool)
      modifies this`points
      ensures Abs() == EmbedDocs(old(Abs()), docs, raises)
    {
      points := DeleteByType(points, Doc);
      if raises {
        return;
      }
      var made: seq<Point> := [];
      assert docs[0..] == docs;
      for i := 0 to |docs|
        invariant DocPoints(docs) == made + DocPoints(docs[i..])
      {
        assert docs[i..][1..] == docs[i + 1..];
        made := made + DocPointsFrom(docs[i]);
      }
      assert docs[|docs|..] == [] && made + [] == made;
      points := Upsert(points, made);
    }
  }
}
