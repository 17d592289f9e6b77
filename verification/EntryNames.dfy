/** Topic and entry names: how they are made safe (pivot/pivot.go) and how an entry's file name
    and its listed name belong together (store/consolidated.go, store/fsutil.go). */
module EntryNames {
  import opened Text
  import opened Wrappers

  function Underscored(s: string): string {
    seq(|s|, i requires 0 <= i < |s| => if s[i] == '/' || s[i] == '\\' then '_' else s[i])
  }

  function UnDot(s: string): string {
    if s == "" then ""
    else if |s| >= 2 && s[0] == '.' && s[1] == '.' then "_" + UnDot(s[2..])
    else [s[0]] + UnDot(s[1..])
  }

  function Sanitize(raw: string): Option<string> {
    var cleaned := UnDot(Underscored(Trim(raw)));
    if cleaned == "" || cleaned[0] == '.' then None else Some(cleaned)
  }

  function EnsureMd(entry: string): string { if EndsWith(entry, ".md") then entry else entry + ".md" }

  predicate NoDots(s: string) { forall i :: 0 <= i < |s| - 1 ==> s[i] != '.' || s[i + 1] != '.' }

  predicate Trimmed(s: string) { s != "" ==> !IsSpace(s[0]) && !IsSpace(s[|s| - 1]) }

  /** A name that is one component of a path, visible, and not padded with space. */
  predicate Clean(s: string) {
    s != "" && s[0] != '.' && '/' !in s && '\\' !in s && NoDots(s) && Trimmed(s)
  }

  lemma {:induction false} LeftTrims(s: string)
    ensures var r := TrimLeft(s);
            && |r| <= |s| && s[|s| - |r|..] == r
            && (r != "" ==> !IsSpace(r[0]))
            && (r == s || |r| < |s|)
  {
    if s != "" && IsSpace(s[0]) {
      LeftTrims(s[1..]);
    }
  }

  lemma TrimTrims(s: string)
    ensures Trimmed(Trim(s)) && |Trim(s)| <= |s|
    ensures s != "" && IsSpace(s[|s| - 1]) ==> |Trim(s)| < |s|
  {
    var l, r := TrimLeft(s), Trim(s);
    LeftTrims(s);
    assert r <= l && (r != "" ==> r[0] == l[0]);
    assert l != "" && IsSpace(l[|l| - 1]) ==> r != l;
  }

  predicate DoubleDot(s: string) { |s| >= 2 && s[0] == '.' && s[1] == '.' }

  lemma {:induction false} UnDotEnds(s: string)
    ensures var r := UnDot(s);
            && |r| <= |s| && (r == "" <==> s == "")
            && (s != "" ==> (r[0] == '_' || r[0] == s[0]) && (r[|r| - 1] == '_' || r[|r| - 1] == s[|s| - 1]))
  {
    if DoubleDot(s) {
      UnDotEnds(s[2..]);
    } else if s != "" {
      UnDotEnds(s[1..]);
    }
  }

  lemma {:induction false} UnDotOnly(s: string, c: char)
    requires c != '_' && c in UnDot(s)
    ensures c in s
  {
    if DoubleDot(s) {
      assert UnDot(s) == "_" + UnDot(s[2..]);
      UnDotOnly(s[2..], c);
    } else if s != "" && c != s[0] {
      assert UnDot(s) == [s[0]] + UnDot(s[1..]);
      UnDotOnly(s[1..], c);
    }
  }

  lemma NoDotsCons(c: char, r: string)
    requires NoDots(r) && (c == '.' ==> r == "" || r[0] != '.')
    ensures NoDots([c] + r)
  {}

  lemma {:induction false} UnDotRemovesDots(s: string)
    ensures NoDots(UnDot(s))
  {
    if DoubleDot(s) {
      UnDotRemovesDots(s[2..]);
      NoDotsCons('_', UnDot(s[2..]));
    } else if s != "" {
      UnDotRemovesDots(s[1..]);
      UnDotEnds(s[1..]);
      NoDotsCons(s[0], UnDot(s[1..]));
    }
  }

  lemma {:induction false} UnDotKeeps(s: string)
    requires NoDots(s)
    ensures UnDot(s) == s
  {
    if s == "" {
    } else {
      assert forall i :: 0 <= i < |s[1..]| ==> s[1..][i] == s[i + 1];
      UnDotKeeps(s[1..]);
      assert [s[0]] + s[1..] == s;
    }
  }

  /** Whatever is accepted becomes one clean path component, */
  lemma SanitizedIsClean(raw: string)
    ensures Sanitize(raw).Some? ==> Clean(Sanitize(raw).value) && |Sanitize(raw).value| <= |Trim(raw)|
  {
    TrimTrims(raw);
    var s := Underscored(Trim(raw));
    UnDotEnds(s);
    UnDotRemovesDots(s);
    if '/' in UnDot(s) { UnDotOnly(s, '/'); }
    if '\\' in UnDot(s) { UnDotOnly(s, '\\'); }
  }

  /** and a clean name is accepted as it is, so sanitizing twice changes nothing. */
  lemma CleanIsKept(s: string)
    requires Clean(s)
    ensures Sanitize(s) == Some(s)
  {
    assert Trim(s) == s;
    assert Underscored(s) == s;
    UnDotKeeps(s);
  }

  lemma UnDotFirst(s: string)
    ensures UnDot(s) == "" <==> s == ""
    ensures s != "" ==> UnDot(s)[0] == if DoubleDot(s) then '_' else s[0]
  {}

  /** A name is refused exactly when nothing is left of it without the space around it, or it is
      hidden: it starts with a dot that no second one follows. */
  lemma SanitizeRefusesIff(raw: string)
    ensures var t := Trim(raw);
            Sanitize(raw).None? <==> t == "" || (t[0] == '.' && !(|t| >= 2 && t[1] == '.'))
  {
    UnDotFirst(Underscored(Trim(raw)));
  }

  /** In a name without double dots only the slashes are replaced. */
  lemma SanitizeReplacesSlashes(raw: string)
    requires var t := Trim(raw); t != "" && t[0] != '.' && NoDots(t)
    ensures var t := Trim(raw);
            && Sanitize(raw).Some? && |Sanitize(raw).value| == |t|
            && forall i :: 0 <= i < |t| ==> Sanitize(raw).value[i] == if t[i] == '/' || t[i] == '\\' then '_' else t[i]
  {
    UnDotKeeps(Underscored(Trim(raw)));
  }

  /** A double dot becomes one underscore. */
  lemma {:induction false} UnDotReplaces(a: string, b: string)
    requires NoDots(a) && (a != "" ==> a[|a| - 1] != '.')
    ensures UnDot(a + ".." + b) == a + "_" + UnDot(b)
  {
    var s := a + ".." + b;
    if a == "" {
      assert DoubleDot(s) && s[2..] == b;
    } else {
      assert s[1..] == a[1..] + ".." + b;
      UnDotReplaces(a[1..], b);
      assert [a[0]] + (a[1..] + "_" + UnDot(b)) == a + "_" + UnDot(b);
    }
  }

  lemma ListedStem(raw: string)
    requires Sanitize(raw).Some?
    ensures var entry := Sanitize(raw).value; var file := EnsureMd(entry); var listed := Stem(file);
            Clean(entry) && listed != "" && listed <= entry && listed + ".md" == file
  {
    var entry := Sanitize(raw).value;
    SanitizedIsClean(raw);
    var file := EnsureMd(entry);
    var listed := file[..|file| - 3];
    assert file == listed + ".md";
    ExtOfMd(listed);
    assert file[|listed|] == '.' && file[0] == entry[0];
  }

  /** The name an entry is listed under finds the entry's file again exactly when it does not
      itself end in `.md` or in a space. */
  lemma ListedNameFindsItsFile(raw: string)
    requires Sanitize(raw).Some?
    ensures var file := EnsureMd(Sanitize(raw).value); var listed := Stem(file);
            && listed != "" && listed + ".md" == file
            && ((Sanitize(listed).Some? && EnsureMd(Sanitize(listed).value) == file)
                <==> !EndsWith(listed, ".md") && !IsSpace(listed[|listed| - 1]))
  {
    ListedStem(raw);
    var listed := Stem(EnsureMd(Sanitize(raw).value));
    TrimTrims(listed);
    SanitizedIsClean(listed);
    if !IsSpace(listed[|listed| - 1]) {
      assert Clean(listed);
      CleanIsKept(listed);
    }
  }
}
