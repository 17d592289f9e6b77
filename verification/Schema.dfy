/** Point identity in the vector store (store/schema.py). The id is a hash of a key string; the
    hash is taken as injective, so what keeps points apart is the key. */
module Schema {
  import opened Text
  import Slugs

  type Path = string
  type Sha = string

  const DOC_PATH_PREFIX := ".dexiask-docs/"

  function PointKey(repo: string, path: Path, ordinal: nat): string {
    repo + ":" + path + ":" + Dec(ordinal)
  }

  lemma LastColon(a: string, m: nat)
    ensures forall k :: |a| < k < |a + ":" + Dec(m)| ==> (a + ":" + Dec(m))[k] != ':'
  {
    forall k | |a| < k < |a + ":" + Dec(m)| ensures (a + ":" + Dec(m))[k] != ':' {
      assert (a + ":" + Dec(m))[k] == Dec(m)[k - |a| - 1];
    }
  }

  lemma KeyParts(a: string, m: nat)
    ensures var s := a + ":" + Dec(m); s[|a|] == ':' && s[..|a|] == a && s[|a| + 1..] == Dec(m)
  {}

  lemma DigitsDecideOrdinal(a: string, m: nat, b: string, n: nat)
    requires a + ":" + Dec(m) == b + ":" + Dec(n)
    ensures a == b && m == n
  {
    KeyParts(a, m);
    KeyParts(b, n);
    LastColon(a, m);
    LastColon(b, n);
    assert |a| == |b|;
    DecInjective(m, n);
  }

  /** Within a repo the key is injective, whatever colons and digits a path contains, so a store
      keyed by ids is a store keyed by path and ordinal. */
  lemma PointKeyInjective(repo: string, p: Path, m: nat, q: Path, n: nat)
    ensures PointKey(repo, p, m) == PointKey(repo, q, n) <==> p == q && m == n
  {
    if PointKey(repo, p, m) == PointKey(repo, q, n) {
      var head := repo + ":";
      DigitsDecideOrdinal(head + p, m, head + q, n);
      assert (head + p)[|head|..] == p && (head + q)[|head|..] == q;
    }
  }

  lemma LongerIdMeets(a: string, b: string)
    requires a + ":" <= b + ":"
    ensures exists p :: PointKey(a, p, 0) == PointKey(b, "", 0)
  {
    var p := (b + ":")[|a| + 1..];
    assert a + ":" + p == b + ":";
    assert PointKey(a, p, 0) == PointKey(b, "", 0);
  }

  /** Two repos have some key in common exactly when one id up to its colon starts the other. */
  lemma KeysMeetIff(a: string, b: string)
    ensures (exists p, m, q, n :: PointKey(a, p, m) == PointKey(b, q, n)) <==> a + ":" <= b + ":" || b + ":" <= a + ":"
  {
    if p, m, q, n :| PointKey(a, p, m) == PointKey(b, q, n) {
      var key := PointKey(a, p, m);
      assert key[..|a| + 1] == a + ":" && key[..|b| + 1] == b + ":";
    }
    if a + ":" <= b + ":" {
      LongerIdMeets(a, b);
    }
    if b + ":" <= a + ":" {
      LongerIdMeets(b, a);
    }
  }

  predicate IsIdChar(c: char) { 'a' <= c <= 'z' || 'A' <= c <= 'Z' || '0' <= c <= '9' || c == '_' || c == '-' }

  /** The ids a repo may have; the expression's `$` also matches before a final newline. */
  predicate ValidRepoId(id: string) {
    var body := if id != "" && id[|id| - 1] == '\n' then id[..|id| - 1] else id;
    body != "" && forall i :: 0 <= i < |body| ==> IsIdChar(body[i])
  }

  lemma NoColon(id: string)
    requires ValidRepoId(id)
    ensures ':' !in id
  {
    var body := if id[|id| - 1] == '\n' then id[..|id| - 1] else id;
    forall i | 0 <= i < |id| ensures id[i] != ':' {
      if i < |body| {
        assert IsIdChar(body[i]) && !IsIdChar(':');
      }
    }
  }

  /** So over all repos a service can be configured with, a key says which point of which repo. */
  lemma PointKeyInjectiveAcrossRepos(a: string, p: Path, m: nat, b: string, q: Path, n: nat)
    requires ValidRepoId(a) && ValidRepoId(b)
    ensures PointKey(a, p, m) == PointKey(b, q, n) <==> a == b && p == q && m == n
  {
    if PointKey(a, p, m) == PointKey(b, q, n) {
      KeysMeetIff(a, b);
      NoColon(a);
      NoColon(b);
      assert a == (a + ":")[..|a|] && b == (b + ":")[..|b|];
      assert (a + ":")[|a|] == ':' && (b + ":")[|b|] == ':';
      PointKeyInjective(a, p, m, q, n);
    }
  }

  function DocVirtualPath(slug: string): Path { DOC_PATH_PREFIX + slug }

  predicate IsDocPath(p: Path) { StartsWith(p, DOC_PATH_PREFIX) }

  lemma DocPathsAreDocPaths(slug: string)
    ensures IsDocPath(DocVirtualPath(slug))
  {
    assert DocVirtualPath(slug)[..|DOC_PATH_PREFIX|] == DOC_PATH_PREFIX;
  }

  /** Documents with distinct slugs never share a point key. */
  lemma DocKeysDistinct(repo: string, docs: seq<Slugs.DomainDoc>, i: nat, m: nat, j: nat, n: nat)
    requires Slugs.DistinctSlugs(docs) && i < |docs| && j < |docs|
    ensures PointKey(repo, DocVirtualPath(docs[i].slug), m) == PointKey(repo, DocVirtualPath(docs[j].slug), n)
       <==> i == j && m == n
  {
    var p, q := DocVirtualPath(docs[i].slug), DocVirtualPath(docs[j].slug);
    PointKeyInjective(repo, p, m, q, n);
    assert p[|DOC_PATH_PREFIX|..] == docs[i].slug && q[|DOC_PATH_PREFIX|..] == docs[j].slug;
    assert i < j ==> docs[i].slug != docs[j].slug;
    assert j < i ==> docs[j].slug != docs[i].slug;
  }
}
