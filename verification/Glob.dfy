/** Path filters: the glob-to-regex translation and the inclusion test (pipeline/indexer.py). */
module Glob {
  import opened Text
  import opened Wrappers

  // ------------------------------------------------------------------ what a glob means

  /** The pattern after a leading `**`, which swallows one following slash. */
  function AfterStars(pattern: string): string
    requires StartsWith(pattern, "**")
  {
    if |pattern| > 2 && pattern[2] == '/' then pattern[3..] else pattern[2..]
  }

  /** `**` stands for any text, `*` for text within a segment, `?` for one character of a
      segment, and anything else for itself. */
  ghost predicate Matches(pattern: string, s: string)
    decreases |pattern|
  {
    if pattern == "" then s == ""
    else if StartsWith(pattern, "**") then
      exists k :: 0 <= k <= |s| && Matches(AfterStars(pattern), s[k..])
    else if pattern[0] == '*' then
      exists k :: 0 <= k <= |s| && '/' !in s[..k] && Matches(pattern[1..], s[k..])
    else
      s != "" && (if pattern[0] == '?' then s[0] != '/' else s[0] == pattern[0]) && Matches(pattern[1..], s[1..])
  }

  // ------------------------------------------------------------------ regular expressions

  /** The four things the translation ever emits. */
  datatype Atom = AnyStar | SegmentStar | SegmentOne | Literal(c: char)

  /** The characters `re.escape` puts a backslash before. */
  const SPECIAL: string := "()[]{}?*+-|^$\\.&~# \t\n\r" + [11 as char, 12 as char]

  /** The characters that are not literals on their own in a regular expression. */
  const META := "()[]{}?*+|^$\\."

  const QUANTIFIERS := "*+?{"

  function Escape(c: char): string { if c in SPECIAL then ['\\', c] else [c] }

  function Emit(a: Atom): string {
    match a
    case AnyStar => ".*"
    case SegmentStar => "[^/]*"
    case SegmentOne => "[^/]"
    case Literal(c) => Escape(c)
  }

  function EmitAll(atoms: seq<Atom>): string {
    if atoms == [] then "" else Emit(atoms[0]) + EmitAll(atoms[1..])
  }

  /** Read one atom off a regular expression of this fragment: how many characters it takes. */
  function ReadAtom(body: string): Option<(Atom, nat)>
    requires body != ""
  {
    if StartsWith(body, ".*") then Some((AnyStar, 2))
    else if StartsWith(body, "[^/]*") then Some((SegmentStar, 5))
    else if StartsWith(body, "[^/]") then Some((SegmentOne, 4))
    else if body[0] == '\\' then (if |body| > 1 && body[1] in SPECIAL then Some((Literal(body[1]), 2)) else None)
    else if body[0] in META then None
    else Some((Literal(body[0]), 1))
  }

  /** Read a whole body, refusing anything outside the fragment, quantified literals included. */
  function ReadBody(body: string): Option<seq<Atom>>
    decreases |body|
  {
    if body == "" then Some([])
    else
      match ReadAtom(body)
      case None => None
      case Some((a, n)) =>
        if n < 1 || n > |body| || (n < |body| && body[n] in QUANTIFIERS) then None
        else
          match ReadBody(body[n..])
          case None => None
          case Some(rest) => Some([a] + rest)
  }

  predicate AtomAccepts(a: Atom, piece: string) {
    match a
    case AnyStar => '\n' !in piece
    case SegmentStar => '/' !in piece
    case SegmentOne => |piece| == 1 && piece != "/"
    case Literal(c) => piece == [c]
  }

  /** A concatenation accepts what can be cut into pieces its atoms accept one by one. */
  ghost predicate CutsInto(atoms: seq<Atom>, pieces: seq<string>, s: string) {
    && |pieces| == |atoms| && Flatten(pieces) == s
    && forall i :: 0 <= i < |atoms| ==> AtomAccepts(atoms[i], pieces[i])
  }

  ghost predicate Accepts(atoms: seq<Atom>, s: string) { exists pieces :: CutsInto(atoms, pieces, s) }

  /** `re.compile(rx).match(s)` for an anchored expression: `$` also stands before a final newline. */
  ghost predicate ReMatch(rx: string, s: string) {
    && |rx| >= 2 && rx[0] == '^' && rx[|rx| - 1] == '$'
    && ReadBody(rx[1..|rx| - 1]).Some?
    && var atoms := ReadBody(rx[1..|rx| - 1]).value;
       Accepts(atoms, s) || (s != "" && s[|s| - 1] == '\n' && Accepts(atoms, s[..|s| - 1]))
  }

  // ------------------------------------------------------------------ the translation

  /** The atoms a pattern stands for. */
  function Atoms(pattern: string): seq<Atom>
    decreases |pattern|
  {
    if pattern == "" then []
    else if StartsWith(pattern, "**") then [AnyStar] + Atoms(AfterStars(pattern))
    else [if pattern[0] == '*' then SegmentStar else if pattern[0] == '?' then SegmentOne else Literal(pattern[0])]
         + Atoms(pattern[1..])
  }

  /** One turn of the translation loop: the piece for the pattern at `i`, and where it goes on. */
  method NextPiece(pattern: string, i: nat) returns (piece: string, next: nat)
    requires i < |pattern|
    ensures i < next <= |pattern|
    ensures Atoms(pattern[i..]) == [Atoms(pattern[i..])[0]] + Atoms(pattern[next..])
    ensures piece == Emit(Atoms(pattern[i..])[0])
  {
    ghost var rest := pattern[i..];
    assert i + 2 <= |pattern| ==> rest[..2] == pattern[i..i + 2];
    if i + 2 <= |pattern| && pattern[i..i + 2] == "**" {
      piece, next := ".*", i + 2;
      if next < |pattern| && pattern[next] == '/' {
        next := next + 1;
      }
      assert pattern[next..] == AfterStars(rest);
    } else {
      next := i + 1;
      assert pattern[next..] == rest[1..];
      if pattern[i] == '*' {
        piece := "[^/]*";
      } else if pattern[i] == '?' {
        piece := "[^/]";
      } else {
        piece := Escape(pattern[i]);
      }
    }
  }

  lemma MovePiece(out: seq<string>, piece: string, rest: string)
    ensures Flatten(out + [piece]) + rest == Flatten(out) + (piece + rest)
  {
    FlattenSnoc(out, piece);
  }

  lemma EmitFirst(atoms: seq<Atom>, rest: seq<Atom>)
    requires atoms != [] && atoms == [atoms[0]] + rest
    ensures EmitAll(atoms) == Emit(atoms[0]) + EmitAll(rest)
  {
    assert atoms[1..] == rest;
  }

  method TranslateBody(pattern: string) returns (out: seq<string>)
    ensures Flatten(out) == EmitAll(Atoms(pattern))
  {
    out := [];
    var i := 0;
    ghost var rest := EmitAll(Atoms(pattern));
    assert pattern[0..] == pattern;
    while i < |pattern|
      invariant 0 <= i <= |pattern|
      invariant rest == EmitAll(Atoms(pattern[i..]))
      invariant Flatten(out) + rest == EmitAll(Atoms(pattern))
    {
      var piece, next := NextPiece(pattern, i);
      EmitFirst(Atoms(pattern[i..]), Atoms(pattern[next..]));
      rest := EmitAll(Atoms(pattern[next..]));
      MovePiece(out, piece, rest);
      out, i := out + [piece], next;
    }
    assert pattern[i..] == "" && rest == "";
  }

  /** An emitted atom never begins with a quantifier, so none is read as quantifying another. */
  lemma EmitStart(atoms: seq<Atom>)
    requires EmitAll(atoms) != ""
    ensures EmitAll(atoms)[0] !in QUANTIFIERS
  {}

  lemma ReadEmitted(a: Atom, rest: string)
    requires rest == "" || rest[0] !in QUANTIFIERS
    ensures ReadAtom(Emit(a) + rest) == Some((a, |Emit(a)|))
  {
    var body := Emit(a) + rest;
    match a
    case AnyStar => assert body[..2] == ".*";
    case SegmentStar =>
      assert body[..5] == "[^/]*";
      assert body[..2][0] == '[';
    case SegmentOne =>
      assert body[..2][0] == '[';
      assert body[..4] == "[^/]";
      assert |body| >= 5 ==> body[..5][4] == rest[0];
    case Literal(c) =>
      assert forall p: string :: p != "" && StartsWith(body, p) ==> p[0] == body[0];
  }

  lemma ReadBodyStep(body: string, a: Atom, n: nat, rest: string, atoms: seq<Atom>)
    requires body != "" && ReadAtom(body) == Some((a, n)) && 1 <= n <= |body| && body[n..] == rest
    requires rest != "" ==> rest[0] !in QUANTIFIERS
    requires ReadBody(rest) == Some(atoms)
    ensures ReadBody(body) == Some([a] + atoms)
  {
    assert n < |body| ==> body[n] == rest[0];
  }

  /** Escaping keeps every literal a literal: the emitted text reads back as the atoms meant. */
  lemma {:induction false} ReadBackEmitted(atoms: seq<Atom>)
    ensures ReadBody(EmitAll(atoms)) == Some(atoms)
  {
    if atoms == [] {
    } else {
      var rest := EmitAll(atoms[1..]);
      if rest != "" {
        EmitStart(atoms[1..]);
      }
      ReadEmitted(atoms[0], rest);
      ReadBackEmitted(atoms[1..]);
      var body, n := EmitAll(atoms), |Emit(atoms[0])|;
      assert body == Emit(atoms[0]) + rest && body[n..] == rest;
      ReadBodyStep(body, atoms[0], n, rest, atoms[1..]);
      assert atoms == [atoms[0]] + atoms[1..];
    }
  }

  lemma AcceptsFirst(atoms: seq<Atom>, s: string)
    requires atoms != []
    ensures Accepts(atoms, s) <==>
            exists k :: 0 <= k <= |s| && AtomAccepts(atoms[0], s[..k]) && Accepts(atoms[1..], s[k..])
  {
    if Accepts(atoms, s) {
      var pieces :| CutsInto(atoms, pieces, s);
      var k := |pieces[0]|;
      assert s == pieces[0] + Flatten(pieces[1..]);
      assert s[..k] == pieces[0] && s[k..] == Flatten(pieces[1..]);
      assert CutsInto(atoms[1..], pieces[1..], s[k..]);
    }
    if k :| 0 <= k <= |s| && AtomAccepts(atoms[0], s[..k]) && Accepts(atoms[1..], s[k..]) {
      var pieces :| CutsInto(atoms[1..], pieces, s[k..]);
      assert ([s[..k]] + pieces)[1..] == pieces;
      assert CutsInto(atoms, [s[..k]] + pieces, s);
    }
  }

  lemma OneStep(atoms: seq<Atom>, s: string)
    requires atoms != [] && (atoms[0].SegmentOne? || atoms[0].Literal?)
    ensures Accepts(atoms, s) <==> s != "" && AtomAccepts(atoms[0], s[..1]) && Accepts(atoms[1..], s[1..])
  {
    AcceptsFirst(atoms, s);
    assert forall k :: 0 <= k <= |s| && AtomAccepts(atoms[0], s[..k]) ==> |s[..k]| == 1 && k == 1;
  }

  lemma {:induction false} AcceptsIffMatches(pattern: string, s: string)
    requires '\n' !in s
    ensures Accepts(Atoms(pattern), s) <==> Matches(pattern, s)
    decreases |pattern|
  {
    if pattern == "" {
      assert Flatten<char>([]) == "";
      assert s == "" ==> CutsInto([], [], s);
    } else {
      var atoms := Atoms(pattern);
      var rest := if StartsWith(pattern, "**") then AfterStars(pattern) else pattern[1..];
      assert atoms[1..] == Atoms(rest);
      if StartsWith(pattern, "**") || pattern[0] == '*' {
        AcceptsFirst(atoms, s);
        forall k | 0 <= k <= |s| ensures Accepts(Atoms(rest), s[k..]) <==> Matches(rest, s[k..]) {
          AcceptsIffMatches(rest, s[k..]);
        }
      } else {
        OneStep(atoms, s);
        if s != "" {
          AcceptsIffMatches(rest, s[1..]);
          assert s[..1] == [s[0]];
        }
      }
    }
  }

  /** The compiled expression accepts a newline-free path exactly when the glob matches it. */
  lemma RegexMeansGlob(pattern: string, s: string)
    requires '\n' !in s
    ensures ReMatch("^" + EmitAll(Atoms(pattern)) + "$", s) <==> Matches(pattern, s)
  {
    var body := EmitAll(Atoms(pattern));
    var rx := "^" + body + "$";
    assert rx[1..|rx| - 1] == body;
    ReadBackEmitted(Atoms(pattern));
    AcceptsIffMatches(pattern, s);
  }

  lemma TranslationMeansGlob(pattern: string)
    ensures var rx := "^" + EmitAll(Atoms(pattern)) + "$";
            forall s :: '\n' !in s ==> (ReMatch(rx, s) <==> Matches(pattern, s))
  {
    forall s | '\n' !in s
      ensures ReMatch("^" + EmitAll(Atoms(pattern)) + "$", s) <==> Matches(pattern, s)
    {
      RegexMeansGlob(pattern, s);
    }
  }

  method GlobRegex(pattern: string) returns (rx: string)
    ensures rx == "^" + EmitAll(Atoms(pattern)) + "$"
    ensures forall s :: '\n' !in s ==> (ReMatch(rx, s) <==> Matches(pattern, s))
  {
    var out := TranslateBody(pattern);
    rx := "^" + Flatten(out) + "$";
    TranslationMeansGlob(pattern);
  }

  // ------------------------------------------------------------------ meaning is preserved

  lemma AnyStarStopsAtNewline(s: string)
    ensures Accepts([AnyStar], s) <==> '\n' !in s
  {
    AcceptsFirst([AnyStar], s);
    assert Flatten<char>([]) == "";
    var n := |s|;
    assert s[..n] == s && s[n..] == "";
    assert [AnyStar][1..] == [];
    assert CutsInto([], [], s[n..]);
    assert Accepts([AnyStar][1..], s[n..]);
    if Accepts([AnyStar], s) {
      var k :| 0 <= k <= n && AtomAccepts(AnyStar, s[..k]) && Accepts([AnyStar][1..], s[k..]);
      var pieces :| CutsInto([], pieces, s[k..]);
      assert k == n;
    }
  }

  lemma StarsMatchAnything(s: string)
    ensures Matches("**", s)
  {
    assert AfterStars("**") == "" && s[|s|..] == "";
    assert Matches(AfterStars("**"), s[|s|..]);
  }

  lemma StarsAreOneAtom()
    ensures Atoms("**") == [AnyStar]
  {
    assert AfterStars("**") == "";
    assert Atoms("**") == [AnyStar] + Atoms("");
  }

  lemma AnyStarMeans(s: string)
    ensures ReMatch("^" + EmitAll([AnyStar]) + "$", s) <==>
              '\n' !in s || (s[|s| - 1] == '\n' && '\n' !in s[..|s| - 1])
  {
    var rx := "^" + EmitAll([AnyStar]) + "$";
    assert rx[1..|rx| - 1] == EmitAll([AnyStar]);
    ReadBackEmitted([AnyStar]);
    AnyStarStopsAtNewline(s);
    if s != "" {
      AnyStarStopsAtNewline(s[..|s| - 1]);
    }
  }

  /** A newline anywhere but at the end is where `**` stops, though it means any text. */
  lemma NewlineBreaksStars(s: string)
    requires s != "" && '\n' in s[..|s| - 1]
    ensures Matches("**", s) && !ReMatch("^" + EmitAll(Atoms("**")) + "$", s)
  {
    StarsMatchAnything(s);
    StarsAreOneAtom();
    AnyStarMeans(s);
    assert forall c :: c in s[..|s| - 1] ==> c in s;
  }

  /** The pattern with a `?` for each character of a segment. */
  function Masked(s: string): string {
    if s == "" then "" else [if s[0] == '/' then '/' else '?'] + Masked(s[1..])
  }

  lemma {:induction false} MaskedMatches(u: string, s: string)
    ensures Matches(Masked(u), s) ==> |s| == |u|
    ensures Accepts(Atoms(Masked(u)), u)
    decreases |u|
  {
    if u == "" {
      assert Flatten<char>([]) == "";
      assert CutsInto([], [], "");
    } else {
      var p := Masked(u);
      assert p[1..] == Masked(u[1..]);
      assert p[0] != '*' && !StartsWith(p, "**") by {
        assert |p| >= 2 ==> p[..2][0] == p[0];
      }
      MaskedMatches(u[1..], if s == "" then "" else s[1..]);
      var atoms := Atoms(p);
      assert atoms[1..] == Atoms(Masked(u[1..]));
      assert u[..1] == [u[0]];
      AcceptsFirst(atoms, u);
    }
  }

  /** A final newline is let in by `$`, though the glob has nothing for it. */
  lemma FinalNewlineSlipsIn(u: string)
    ensures !Matches(Masked(u), u + "\n") && ReMatch("^" + EmitAll(Atoms(Masked(u))) + "$", u + "\n")
  {
    var body := EmitAll(Atoms(Masked(u)));
    var rx := "^" + body + "$";
    assert rx[1..|rx| - 1] == body;
    ReadBackEmitted(Atoms(Masked(u)));
    MaskedMatches(u, u + "\n");
    assert (u + "\n")[..|u|] == u;
  }

  ghost predicate Agrees(pattern: string, s: string) {
    ReMatch("^" + EmitAll(Atoms(pattern)) + "$", s) <==> Matches(pattern, s)
  }

  lemma SomePatternDisagrees(s: string)
    requires '\n' in s
    ensures exists pattern :: !Agrees(pattern, s)
  {
    var u := s[..|s| - 1];
    if '\n' in u {
      NewlineBreaksStars(s);
      assert !Agrees("**", s);
    } else {
      FinalNewlineSlipsIn(u);
      assert s == u + "\n";
      assert !Agrees(Masked(u), s);
    }
  }

  /** Translation and glob agree on a path, for every pattern, exactly when it has no newline. */
  lemma AgreeIffNewlineFree(s: string)
    ensures (forall pattern :: Agrees(pattern, s)) <==> '\n' !in s
  {
    if '\n' !in s {
      forall pattern ensures Agrees(pattern, s) {
        RegexMeansGlob(pattern, s);
      }
    } else {
      SomePatternDisagrees(s);
    }
  }

  // ------------------------------------------------------------------ running the expression

  /** A matcher for the atoms, trying the shorter piece first. */
  predicate Runs(atoms: seq<Atom>, s: string)
    decreases |atoms| + |s|
  {
    if atoms == [] then s == ""
    else
      match atoms[0]
      case AnyStar => Runs(atoms[1..], s) || (s != "" && s[0] != '\n' && Runs(atoms, s[1..]))
      case SegmentStar => Runs(atoms[1..], s) || (s != "" && s[0] != '/' && Runs(atoms, s[1..]))
      case SegmentOne => s != "" && s[0] != '/' && Runs(atoms[1..], s[1..])
      case Literal(c) => s != "" && s[0] == c && Runs(atoms[1..], s[1..])
  }

  /** What a star takes off a longer text is one character more than it takes off the rest. */
  lemma StarPiece(a: Atom, s: string, k: nat)
    requires (a.AnyStar? || a.SegmentStar?) && k < |s|
    ensures s[k + 1..] == s[1..][k..]
    ensures AtomAccepts(a, s[..k + 1]) <==> AtomAccepts(a, s[..1]) && AtomAccepts(a, s[1..][..k])
  {
    assert s[..k + 1] == s[..1] + s[1..][..k];
  }

  lemma StarTakesLess(atoms: seq<Atom>, s: string)
    requires atoms != [] && (atoms[0].AnyStar? || atoms[0].SegmentStar?)
    requires Accepts(atoms, s) && !Accepts(atoms[1..], s)
    ensures s != "" && AtomAccepts(atoms[0], s[..1]) && Accepts(atoms, s[1..])
  {
    AcceptsFirst(atoms, s);
    var k :| 0 <= k <= |s| && AtomAccepts(atoms[0], s[..k]) && Accepts(atoms[1..], s[k..]);
    assert s[0..] == s;
    StarPiece(atoms[0], s, k - 1);
    AcceptsFirst(atoms, s[1..]);
  }

  lemma StarTakesMore(atoms: seq<Atom>, s: string)
    requires atoms != [] && (atoms[0].AnyStar? || atoms[0].SegmentStar?)
    requires s != "" && AtomAccepts(atoms[0], s[..1]) && Accepts(atoms, s[1..])
    ensures Accepts(atoms, s)
  {
    AcceptsFirst(atoms, s[1..]);
    var t := s[1..];
    var k :| 0 <= k <= |t| && AtomAccepts(atoms[0], t[..k]) && Accepts(atoms[1..], t[k..]);
    StarPiece(atoms[0], s, k);
    AcceptsFirst(atoms, s);
  }

  lemma StarTakesNothing(atoms: seq<Atom>, s: string)
    requires atoms != [] && (atoms[0].AnyStar? || atoms[0].SegmentStar?) && Accepts(atoms[1..], s)
    ensures Accepts(atoms, s)
  {
    assert s[..0] == "" && s[0..] == s;
    AcceptsFirst(atoms, s);
  }

  lemma StarStep(atoms: seq<Atom>, s: string)
    requires atoms != [] && (atoms[0].AnyStar? || atoms[0].SegmentStar?)
    ensures Accepts(atoms, s) <==>
              Accepts(atoms[1..], s) || (s != "" && AtomAccepts(atoms[0], s[..1]) && Accepts(atoms, s[1..]))
  {
    if Accepts(atoms[1..], s) {
      StarTakesNothing(atoms, s);
    } else if Accepts(atoms, s) {
      StarTakesLess(atoms, s);
    } else if s != "" && AtomAccepts(atoms[0], s[..1]) && Accepts(atoms, s[1..]) {
      StarTakesMore(atoms, s);
    }
  }

  lemma {:induction false} RunsIffAccepts(atoms: seq<Atom>, s: string)
    ensures Runs(atoms, s) <==> Accepts(atoms, s)
    decreases |atoms| + |s|
  {
    if atoms == [] {
      assert Flatten<char>([]) == "";
      assert s == "" ==> CutsInto([], [], s);
    } else if atoms[0].AnyStar? || atoms[0].SegmentStar? {
      StarStep(atoms, s);
      RunsIffAccepts(atoms[1..], s);
      if s != "" {
        RunsIffAccepts(atoms, s[1..]);
      }
    } else {
      OneStep(atoms, s);
      if s != "" {
        RunsIffAccepts(atoms[1..], s[1..]);
      }
    }
  }

  /** `_glob_regex(pattern).match(s)`. */
  predicate CompiledMatch(pattern: string, s: string) {
    Runs(Atoms(pattern), s) || (s != "" && s[|s| - 1] == '\n' && Runs(Atoms(pattern), s[..|s| - 1]))
  }

  /** The matcher is the compiled expression, on every string. */
  lemma CompiledMatchIsReMatch(pattern: string, s: string)
    ensures CompiledMatch(pattern, s) <==> ReMatch("^" + EmitAll(Atoms(pattern)) + "$", s)
  {
    var body := EmitAll(Atoms(pattern));
    var rx := "^" + body + "$";
    assert rx[1..|rx| - 1] == body;
    ReadBackEmitted(Atoms(pattern));
    RunsIffAccepts(Atoms(pattern), s);
    if s != "" {
      RunsIffAccepts(Atoms(pattern), s[..|s| - 1]);
    }
  }

  // ------------------------------------------------------------------ the inclusion test

  /** What follows the last slash: `path.rsplit("/", 1)[-1]`. */
  function Basename(path: string): string { Split(path, '/')[|Split(path, '/')| - 1] }

  /** `_match`: the whole path or its last segment. */
  ghost predicate PathMatches(path: string, pattern: string) {
    Matches(pattern, path) || Matches(pattern, Basename(path))
  }

  lemma {:induction false} SplitKeepsFree(s: string, c: char, d: char)
    requires d !in s
    ensures forall i :: 0 <= i < |Split(s, c)| ==> d !in Split(s, c)[i]
  {
    if s == "" {
    } else {
      SplitKeepsFree(s[1..], c, d);
    }
  }

  /** The two tries of `_match` on the compiled expression are the two readings of the glob. */
  lemma MatchTriesBothNames(path: string, pattern: string)
    requires '\n' !in path
    ensures var rx := "^" + EmitAll(Atoms(pattern)) + "$";
            ReMatch(rx, path) || ReMatch(rx, Basename(path)) <==> PathMatches(path, pattern)
  {
    SplitKeepsFree(path, '/', '\n');
    RegexMeansGlob(pattern, path);
    RegexMeansGlob(pattern, Basename(path));
  }

  lemma {:induction false} SplitWhole(s: string)
    requires |Split(s, '/')| == 1
    ensures Split(s, '/')[0] == s
  {
    if s == "" {
    } else {
      SplitWhole(s[1..]);
    }
  }

  lemma BasenameOfRest(path: string)
    requires path != ""
    ensures Basename(path) == if path[0] == '/' || |Split(path[1..], '/')| > 1 then Basename(path[1..]) else path
  {
    var r := Split(path[1..], '/');
    if path[0] != '/' && |r| == 1 {
      SplitWhole(path[1..]);
      assert path == [path[0]] + path[1..];
    }
  }

  lemma SeveralHaveSlash(s: string)
    requires |Split(s, '/')| > 1
    ensures s != Basename(s)
  {
    SplitFree(s, '/');
    if '/' !in s {
      SplitNone(s, '/');
    }
  }

  lemma EndsWithMore(path: string, tail: string)
    requires path != ""
    ensures EndsWith(path[1..], tail) ==> EndsWith(path, tail)
    ensures path[0] == '/' && path[1..] == tail ==> EndsWith(path, "/" + tail)
  {
    assert path == [path[0]] + path[1..];
    if EndsWith(path[1..], tail) {
      assert path[|path| - |tail|..] == path[1..][|path[1..]| - |tail|..];
    }
  }

  /** The basename holds no slash and is what the path ends with, after a slash if there is one. */
  lemma {:induction false} BasenameIsTheTail(path: string)
    ensures '/' !in Basename(path)
    ensures path == Basename(path) || EndsWith(path, "/" + Basename(path))
  {
    SplitFree(path, '/');
    if path == "" {
    } else {
      BasenameOfRest(path);
      BasenameIsTheTail(path[1..]);
      EndsWithMore(path, "/" + Basename(path[1..]));
      EndsWithMore(path, Basename(path[1..]));
      if |Split(path[1..], '/')| > 1 {
        SeveralHaveSlash(path[1..]);
      }
    }
  }

  datatype Filter = Filter(skipDirs: set<string>, subpath: string, excludes: seq<string>, includes: seq<string>)

  function StripSlashes(s: string): string {
    if StartsWith(s, "/") then StripSlashes(s[1..])
    else if EndsWith(s, "/") then StripSlashes(s[..|s| - 1])
    else s
  }

  predicate AllSlashes(s: string) { forall i :: 0 <= i < |s| ==> s[i] == '/' }

  lemma EndsAreCharacters(s: string)
    requires s != ""
    ensures StartsWith(s, "/") <==> s[0] == '/'
    ensures EndsWith(s, "/") <==> s[|s| - 1] == '/'
  {
    assert s[..1] == [s[0]] && s[|s| - 1..] == [s[|s| - 1]];
  }

  lemma StripFirst(s: string)
    requires s != "" && s[0] == '/'
    ensures StripSlashes(s) == StripSlashes(s[1..])
  {
    EndsAreCharacters(s);
  }

  lemma StripLast(s: string)
    requires s != "" && s[0] != '/' && s[|s| - 1] == '/'
    ensures StripSlashes(s) == StripSlashes(s[..|s| - 1])
  {
    EndsAreCharacters(s);
  }

  lemma StripNone(s: string)
    requires s != "" ==> s[0] != '/' && s[|s| - 1] != '/'
    ensures StripSlashes(s) == s
  {
    if s != "" {
      EndsAreCharacters(s);
    }
  }

  lemma {:induction false} StripLeftSlashes(left: string, rest: string)
    requires AllSlashes(left)
    ensures StripSlashes(left + rest) == StripSlashes(rest)
  {
    if left == "" {
      assert left + rest == rest;
    } else {
      StripFirst(left + rest);
      assert (left + rest)[1..] == left[1..] + rest;
      StripLeftSlashes(left[1..], rest);
    }
  }

  lemma {:induction false} StripRightSlashes(text: string, right: string)
    requires AllSlashes(right) && text != "" && text[0] != '/' && text[|text| - 1] != '/'
    ensures StripSlashes(text + right) == text
  {
    if right == "" {
      StripNone(text);
      assert text + right == text;
    } else {
      var n := |right| - 1;
      StripLast(text + right);
      assert (text + right)[..|text + right| - 1] == text + right[..n];
      StripRightSlashes(text, right[..n]);
    }
  }

  /** `strip("/")` takes the slashes off both ends and nothing else. */
  lemma StripTakesSlashes(left: string, text: string, right: string)
    requires AllSlashes(left) && AllSlashes(right) && (text != "" ==> text[0] != '/' && text[|text| - 1] != '/')
    ensures StripSlashes(left + text + right) == text
  {
    if text == "" {
      StripLeftSlashes(left + right, "");
      assert left + text + right == left + right + "";
    } else {
      StripLeftSlashes(left, text + right);
      assert left + text + right == left + (text + right);
      StripRightSlashes(text, right);
    }
  }

  predicate UnderSubpath(path: string, sp: string) { path == sp || StartsWith(path, sp + "/") }

  /** What a filter is for: no skipped segment, under the subpath, no excluding glob, an including one. */
  ghost predicate Included(f: Filter, path: string) {
    && (forall i :: 0 <= i < |Split(path, '/')| ==> Split(path, '/')[i] !in f.skipDirs)
    && (f.subpath != "" ==> UnderSubpath(path, StripSlashes(f.subpath)))
    && (forall i :: 0 <= i < |f.excludes| ==> !PathMatches(path, f.excludes[i]))
    && (exists i :: 0 <= i < |f.includes| && PathMatches(path, f.includes[i]))
  }

  /** `_match`, on the compiled expression. */
  predicate MatchCode(path: string, pattern: string) {
    CompiledMatch(pattern, path) || CompiledMatch(pattern, Basename(path))
  }

  /** `_included`. */
  predicate IncludedCode(f: Filter, path: string) {
    var parts := Split(path, '/');
    if exists i :: 0 <= i < |parts| && parts[i] in f.skipDirs then false
    else if f.subpath != "" && !UnderSubpath(path, StripSlashes(f.subpath)) then false
    else if exists i :: 0 <= i < |f.excludes| && MatchCode(path, f.excludes[i]) then false
    else exists i :: 0 <= i < |f.includes| && MatchCode(path, f.includes[i])
  }

  /** The test includes what the filter is for, on every newline-free path. */
  lemma IncludedCodeMeansIncluded(f: Filter, path: string)
    requires '\n' !in path
    ensures IncludedCode(f, path) <==> Included(f, path)
  {
    forall pattern ensures MatchCode(path, pattern) <==> PathMatches(path, pattern) {
      CompiledMatchIsReMatch(pattern, path);
      CompiledMatchIsReMatch(pattern, Basename(path));
      MatchTriesBothNames(path, pattern);
    }
  }

  lemma {:induction false} SplitHead(s: string)
    requires s != ""
    ensures var r := Split(s[1..], '/');
            Split(s, '/') == if s[0] == '/' then [""] + r else [[s[0]] + r[0]] + r[1..]
    ensures Split(s, '/') != [""]
  {
    if s[0] == '/' {
      assert |Split(s, '/')| >= 2;
    } else {
      assert Split(s, '/')[0] != "";
    }
  }

  lemma PrefixHead(c: char, a: seq<string>, d: char, b: seq<string>)
    requires a != [] && b != []
    ensures [[c] + a[0]] + a[1..] <= [[d] + b[0]] + b[1..] <==> c == d && a <= b
    ensures !([[c] + a[0]] + a[1..] <= [""] + b) && !([""] + a <= [[d] + b[0]] + b[1..])
  {
    var x, y := [[c] + a[0]] + a[1..], [[d] + b[0]] + b[1..];
    assert x[0] == [c] + a[0] && y[0] == [d] + b[0];
    assert x[0][0] == c && y[0][0] == d && x[0][1..] == a[0] && y[0][1..] == b[0];
    assert x <= y <==> x[0] == y[0] && x[1..] <= y[1..];
    assert a <= b <==> a[0] == b[0] && a[1..] <= b[1..];
  }

  lemma StartsWithHead(s: string, p: string)
    requires s != "" && p != ""
    ensures StartsWith(s, p) <==> s[0] == p[0] && StartsWith(s[1..], p[1..])
  {
    assert p == [p[0]] + p[1..];
    if |p| <= |s| {
      assert s[..|p|] == [s[0]] + s[1..][..|p[1..]|];
    }
  }

  lemma SubpathHead(path: string, sp: string)
    requires path != "" && sp != ""
    ensures UnderSubpath(path, sp) <==> path[0] == sp[0] && UnderSubpath(path[1..], sp[1..])
  {
    assert sp == [sp[0]] + sp[1..] && path == [path[0]] + path[1..];
    assert (sp + "/")[1..] == sp[1..] + "/";
    StartsWithHead(path, sp + "/");
  }

  /** The subpath test goes by whole segments: `src` takes in `src/a` but not `srcs/a`. */
  lemma {:induction false} SubpathIsSegmentPrefix(path: string, sp: string)
    ensures UnderSubpath(path, sp) <==> Split(sp, '/') <= Split(path, '/')
  {
    if sp == "" {
      if path != "" {
        SplitHead(path);
        assert "" + "/" == "/" && path[..1] == [path[0]];
        assert Split(path, '/')[0] == "" <==> path[0] == '/';
      }
    } else if path == "" {
      SplitHead(sp);
    } else {
      SubpathIsSegmentPrefix(path[1..], sp[1..]);
      SubpathHead(path, sp);
      SplitHead(path);
      SplitHead(sp);
      var a, b := Split(sp[1..], '/'), Split(path[1..], '/');
      PrefixHead(sp[0], a, path[0], b);
      assert [""] + a <= [""] + b <==> a <= b by {
        assert ([""] + a)[1..] == a && ([""] + b)[1..] == b;
      }
    }
  }
}
