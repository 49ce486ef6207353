/** utils/FileManager.js: file-name sanitising, and the download root with the
    directories created under it. The file system is a set of existing paths. */
module Files {
  import opened Text

  type Path = string

  predicate IsAbsolute(p: Path) { |p| > 0 && p[0] == '/' }

  type AbsolutePath = p: Path | IsAbsolute(p) witness "/"

  /** `path.join(dir, name)`, without normalising `..` segments. */
  function Join(dir: Path, name: Path): Path
  {
    if name == "" || name == "." then dir else dir + "/" + name
  }

  /** `path.resolve(base, p)`: an absolute `p` is kept, any other is joined onto `base`. */
  function Resolve(base: AbsolutePath, p: Path): (r: AbsolutePath)
    ensures IsAbsolute(p) ==> r == p
  {
    if IsAbsolute(p) then p else Join(base, p)
  }

  // ---------------------------------------------------------------------------
  // sanitizeFileName
  // ---------------------------------------------------------------------------

  /** The characters `[<>:"/\\|?*]` matches. */
  predicate IsIllegal(c: char)
  {
    c == '<' || c == '>' || c == ':' || c == '"' || c == '/' || c == '\\' || c == '|' || c == '?' || c == '*'
  }

  predicate NoIllegal(s: string) { forall i :: 0 <= i < |s| ==> !IsIllegal(s[i]) }

  function SafeChar(c: char): char { if IsIllegal(c) then '_' else c }

  /** `.replace(/[<>:"/\\|?*]/g, '_')` */
  function ReplaceIllegal(s: string): string
  {
    seq(|s|, i requires 0 <= i < |s| => SafeChar(s[i]))
  }

  /** `.replace(/\s+/g, ' ')`: every maximal run of whitespace becomes one space. */
  function CollapseSpaces(s: string): (r: string)
    ensures r == [] <==> s == []
    ensures r != [] ==> (IsSpace(r[0]) <==> IsSpace(s[0]))
    ensures SpacesNormal(r)
    ensures NonSpace(r) == NonSpace(s)
  {
    CollapseRunsShape(s);
    CollapseRuns(s)
  }

  /** The run-by-run definition behind `CollapseSpaces`: a leading whitespace
      run becomes one space, any other character is kept. It is a separate
      function without `ensures` so that the lemmas splitting a name at its
      whitespace runs do not carry `CollapseSpaces`' four postconditions at
      every unfolding. */
  function CollapseRuns(s: string): string
    decreases |s|
  {
    if s == [] then []
    else if IsSpace(s[0]) then [' '] + CollapseRuns(TrimStart(s[1..]))
    else [s[0]] + CollapseRuns(s[1..])
  }

  lemma {:induction false} CollapseRunsShape(s: string)
    ensures var r := CollapseRuns(s);
      && (r == [] <==> s == [])
      && (r != [] ==> (IsSpace(r[0]) <==> IsSpace(s[0])))
      && SpacesNormal(r)
      && NonSpace(r) == NonSpace(s)
    decreases |s|
  {
    if s != [] {
      if IsSpace(s[0]) {
        var t := TrimStart(s[1..]);
        CollapseRunsShape(t);
        var rest := CollapseRuns(t);
        assert NonSpace(s) == NonSpace(s[1..]);
        assert ([' '] + rest)[1..] == rest;
        SpacesNormalCons(' ', rest);
      } else {
        CollapseRunsShape(s[1..]);
        var rest := CollapseRuns(s[1..]);
        assert ([s[0]] + rest)[1..] == rest;
        SpacesNormalCons(s[0], rest);
      }
    }
  }

  /** `sanitizeFileName(fileName)`: illegal characters replaced, whitespace runs
      collapsed, ends trimmed. The result is free of illegal characters, its only
      whitespace is single inner spaces, and its non-whitespace text is the
      input's non-whitespace text with each illegal character turned into one `_`. */
  function Sanitize(fileName: string): (r: string)
    ensures NoIllegal(r)
    ensures SpacesNormal(r)
    ensures NoOuterSpace(r)
    ensures NonSpace(r) == ReplaceIllegal(NonSpace(fileName))
  {
    var replaced := ReplaceIllegal(fileName);
    var collapsed := CollapseSpaces(replaced);
    var r := Trim(collapsed);
    NonSpaceOfReplaceIllegal(fileName);
    ReplaceIllegalIsLegal(NonSpace(fileName));
    NoIllegalFromNonSpace(r);
    r
  }

  lemma ReplaceIllegalIsLegal(s: string)
    ensures NoIllegal(ReplaceIllegal(s))
  {
  }

  lemma {:induction false} NonSpaceOfReplaceIllegal(s: string)
    ensures NonSpace(ReplaceIllegal(s)) == ReplaceIllegal(NonSpace(s))
  {
    if s != [] {
      var t := ReplaceIllegal(s);
      assert t[0] == SafeChar(s[0]);
      assert t[1..] == ReplaceIllegal(s[1..]);
      NonSpaceOfReplaceIllegal(s[1..]);
      if !IsSpace(s[0]) {
        assert ReplaceIllegal([s[0]] + NonSpace(s[1..])) == [SafeChar(s[0])] + ReplaceIllegal(NonSpace(s[1..]));
      }
    }
  }

  /** A character that is not whitespace survives into `NonSpace`. */
  lemma {:induction false} InNonSpace(s: string, i: int)
    requires 0 <= i < |s| && !IsSpace(s[i])
    ensures s[i] in NonSpace(s)
  {
    if i > 0 {
      assert s[1..][i - 1] == s[i];
      InNonSpace(s[1..], i - 1);
    }
  }

  lemma NoIllegalFromNonSpace(s: string)
    requires NoIllegal(NonSpace(s))
    ensures NoIllegal(s)
  {
    forall i | 0 <= i < |s| ensures !IsIllegal(s[i]) {
      if IsIllegal(s[i]) {
        InNonSpace(s, i);
      }
    }
  }

  /** Sanitising a sanitised name changes nothing. */
  lemma SanitizeIdempotent(fileName: string)
    ensures Sanitize(Sanitize(fileName)) == Sanitize(fileName)
  {
    var t := Sanitize(fileName);
    ReplaceIllegalOfLegal(t);
    CollapseSpacesOfNormal(t);
    assert TrimStart(t) == t;
    assert TrimEnd(t) == t;
  }

  lemma ReplaceIllegalOfLegal(s: string)
    requires NoIllegal(s)
    ensures ReplaceIllegal(s) == s
  {
  }

  lemma CollapseSpacesOfNormal(s: string)
    requires SpacesNormal(s)
    ensures CollapseSpaces(s) == s
  {
    CollapseRunsOfNormal(s);
  }

  lemma {:induction false} CollapseRunsOfNormal(s: string)
    requires SpacesNormal(s)
    ensures CollapseRuns(s) == s
    decreases |s|
  {
    if s != [] {
      SpacesNormalSlice(s, 1, |s|);
      CollapseRunsOfNormal(s[1..]);
      if IsSpace(s[0]) {
        assert |s| > 1 ==> !IsSpace(s[1..][0]);
        assert TrimStart(s[1..]) == s[1..];
        assert s == [' '] + s[1..];
      } else {
        assert s == [s[0]] + s[1..];
      }
    }
  }

  // ---------------------------------------------------------------------------
  // What sanitising does to words and to the whitespace between them
  // ---------------------------------------------------------------------------

  predicate NoSpace(s: string) { forall i :: 0 <= i < |s| ==> !IsSpace(s[i]) }

  /** Replacing an illegal character never creates or removes whitespace. */
  lemma SafeCharSpace(c: char)
    ensures IsSpace(SafeChar(c)) <==> IsSpace(c)
  {
  }

  lemma ReplaceIllegalConcat(a: string, b: string)
    ensures ReplaceIllegal(a + b) == ReplaceIllegal(a) + ReplaceIllegal(b)
  {
    assert forall i :: 0 <= i < |a + b| ==> (a + b)[i] == if i < |a| then a[i] else b[i - |a|];
  }

  /** A word keeps non-space ends, and whitespace stays whitespace, once illegal
      characters are replaced. */
  lemma ReplaceIllegalShape(s: string)
    ensures |ReplaceIllegal(s)| == |s|
    ensures NoOuterSpace(s) ==> NoOuterSpace(ReplaceIllegal(s))
    ensures AllSpace(s) ==> AllSpace(ReplaceIllegal(s))
    ensures NoSpace(s) ==> NoSpace(ReplaceIllegal(s))
  {
    if s != [] {
      SafeCharSpace(s[0]);
      SafeCharSpace(s[|s| - 1]);
    }
    forall i | 0 <= i < |s| ensures IsSpace(ReplaceIllegal(s)[i]) <==> IsSpace(s[i]) {
      SafeCharSpace(s[i]);
    }
  }

  /** Leading whitespace of a piece that ends in a non-space is stripped before
      anything that follows it is reached. */
  lemma {:induction false} TrimStartAppend(y: string, z: string)
    requires y != [] && !IsSpace(y[|y| - 1])
    ensures TrimStart(y + z) == TrimStart(y) + z
  {
    assert (y + z)[0] == y[0];
    if IsSpace(y[0]) {
      assert (y + z)[1..] == y[1..] + z;
      TrimStartAppend(y[1..], z);
    }
  }

  /** Whitespace runs never cross the end of a piece that ends in a non-space. */
  lemma {:induction false} CollapseAppend(x: string, z: string)
    requires x == [] || !IsSpace(x[|x| - 1])
    ensures CollapseRuns(x + z) == CollapseRuns(x) + CollapseRuns(z)
    decreases |x|
  {
    if x == [] {
      assert x + z == z;
    } else if IsSpace(x[0]) {
      var t := TrimStart(x[1..]);
      assert t != [] && t[|t| - 1] == x[|x| - 1];
      CollapseAppend(t, z);
      CollapseAppendSpace(x, z);
    } else {
      CollapseAppend(x[1..], z);
      CollapseAppendWord(x, z);
    }
  }

  /** The step of `CollapseAppend` for a piece that starts with whitespace. */
  lemma CollapseAppendSpace(x: string, z: string)
    requires |x| > 1 && IsSpace(x[0]) && !IsSpace(x[|x| - 1])
    requires CollapseRuns(TrimStart(x[1..]) + z) == CollapseRuns(TrimStart(x[1..])) + CollapseRuns(z)
    ensures CollapseRuns(x + z) == CollapseRuns(x) + CollapseRuns(z)
  {
    var t := TrimStart(x[1..]);
    ConsAppend(x, z);
    TrimStartAppend(x[1..], z);
    CollapseRunsSpace(x + z);
    AppendAssoc([' '], CollapseRuns(t), CollapseRuns(z));
  }

  /** The step of `CollapseAppend` for a piece that starts with a non-space. */
  lemma CollapseAppendWord(x: string, z: string)
    requires x != [] && !IsSpace(x[0])
    requires CollapseRuns(x[1..] + z) == CollapseRuns(x[1..]) + CollapseRuns(z)
    ensures CollapseRuns(x + z) == CollapseRuns(x) + CollapseRuns(z)
  {
    ConsAppend(x, z);
    assert CollapseRuns(x + z) == [x[0]] + CollapseRuns(x[1..] + z);
    AppendAssoc([x[0]], CollapseRuns(x[1..]), CollapseRuns(z));
  }

  lemma CollapseRunsSpace(s: string)
    requires s != [] && IsSpace(s[0])
    ensures CollapseRuns(s) == [' '] + CollapseRuns(TrimStart(s[1..]))
  {
  }

  lemma ConsAppend(x: string, z: string)
    requires x != []
    ensures (x + z)[0] == x[0] && (x + z)[1..] == x[1..] + z
  {
  }

  lemma AppendAssoc(a: string, b: string, c: string)
    ensures a + (b + c) == (a + b) + c
  {
  }

  /** A whitespace run in front of a word becomes one space. */
  lemma CollapseSpan(sp: string, y: string)
    requires sp != [] && AllSpace(sp)
    requires y == [] || !IsSpace(y[0])
    ensures CollapseRuns(sp + y) == [' '] + CollapseRuns(y)
  {
    assert (sp + y)[0] == sp[0];
    assert (sp + y)[1..] == sp[1..] + y;
    TrimStartPadded(sp[1..], y);
  }

  /** Collapsing keeps a non-space last character. */
  lemma {:induction false} CollapseLast(x: string)
    requires x != [] && !IsSpace(x[|x| - 1])
    ensures var r := CollapseRuns(x); r != [] && !IsSpace(r[|r| - 1])
    decreases |x|
  {
    if IsSpace(x[0]) {
      var t := TrimStart(x[1..]);
      assert t != [] && t[|t| - 1] == x[|x| - 1];
      CollapseLast(t);
      var rest := CollapseRuns(t);
      assert CollapseRuns(x) == [' '] + rest;
    } else if |x| > 1 {
      CollapseLast(x[1..]);
      var rest := CollapseRuns(x[1..]);
      assert CollapseRuns(x) == [x[0]] + rest;
    } else {
      assert CollapseRuns(x) == [x[0]] + CollapseRuns([]);
    }
  }

  /** A name without whitespace only has its illegal characters replaced. */
  lemma SanitizeWord(w: string)
    requires NoSpace(w)
    ensures Sanitize(w) == ReplaceIllegal(w)
  {
    var t := ReplaceIllegal(w);
    ReplaceIllegalShape(w);
    CollapseSpacesOfNormal(t);
    if t != [] {
      TrimWord(t);
    }
  }

  /** Whitespace between two words becomes exactly one space. */
  lemma SanitizeSplit(a: string, sp: string, b: string)
    requires a != [] && NoOuterSpace(a) && b != [] && NoOuterSpace(b)
    requires sp != [] && AllSpace(sp)
    ensures Sanitize(a + sp + b) == Sanitize(a) + " " + Sanitize(b)
  {
    var ra, rs, rb := ReplaceIllegal(a), ReplaceIllegal(sp), ReplaceIllegal(b);
    ReplaceIllegalShape(a);
    ReplaceIllegalShape(sp);
    ReplaceIllegalShape(b);
    ReplaceIllegalSplit(a, sp, b);
    SanitizeOfWord(a);
    SanitizeOfWord(b);
    var p, q := CollapseRuns(ra), CollapseRuns(rb);
    CollapseAppend(ra, rs + rb);
    CollapseSpan(rs, rb);
    JoinWords(p, q);
    TrimWord(p + " " + q);
    SanitizeRuns(a + sp + b);
  }

  /** Whitespace around a name is dropped. */
  lemma SanitizePadded(before: string, a: string, after: string)
    requires AllSpace(before) && AllSpace(after)
    requires a != [] && NoOuterSpace(a)
    ensures Sanitize(before + a + after) == Sanitize(a)
  {
    var rb, ra, rf := ReplaceIllegal(before), ReplaceIllegal(a), ReplaceIllegal(after);
    ReplaceIllegalShape(before);
    ReplaceIllegalShape(a);
    ReplaceIllegalShape(after);
    ReplaceIllegalSplit(before, a, after);
    SanitizeOfWord(a);
    var front, back := CollapsePadded(rb, ra, rf);
    TrimPadded(front, CollapseRuns(ra), back);
    SanitizeRuns(before + a + after);
  }

  /** What `Sanitize` computes, on the run-by-run collapse. */
  lemma SanitizeRuns(s: string)
    ensures Sanitize(s) == Trim(CollapseRuns(ReplaceIllegal(s)))
  {
  }

  /** A word collapses to a word, which trimming leaves whole. */
  lemma SanitizeOfWord(a: string)
    requires a != [] && NoOuterSpace(a)
    ensures var p := CollapseRuns(ReplaceIllegal(a)); p != [] && NoOuterSpace(p) && Sanitize(a) == p
  {
    var ra := ReplaceIllegal(a);
    ReplaceIllegalShape(a);
    CollapseLast(ra);
    CollapseRunsShape(ra);
    TrimWord(CollapseRuns(ra));
    SanitizeRuns(a);
  }

  lemma ReplaceIllegalSplit(a: string, b: string, c: string)
    ensures ReplaceIllegal(a + b + c) == ReplaceIllegal(a) + (ReplaceIllegal(b) + ReplaceIllegal(c))
  {
    ReplaceIllegalConcat(a + b, c);
    ReplaceIllegalConcat(a, b);
    AppendAssoc(ReplaceIllegal(a), ReplaceIllegal(b), ReplaceIllegal(c));
  }

  /** Two words joined by one space form a word. */
  lemma JoinWords(p: string, q: string)
    requires p != [] && NoOuterSpace(p) && q != [] && NoOuterSpace(q)
    ensures p + ([' '] + q) == p + " " + q
    ensures NoOuterSpace(p + " " + q)
  {
  }

  /** Collapsing whitespace around a word whose ends are not whitespace. */
  lemma CollapsePadded(rb: string, ra: string, rf: string) returns (front: string, back: string)
    requires AllSpace(rb) && AllSpace(rf)
    requires ra != [] && NoOuterSpace(ra)
    ensures AllSpace(front) && AllSpace(back)
    ensures CollapseRuns(rb + (ra + rf)) == front + CollapseRuns(ra) + back
  {
    back := CollapseTrailing(ra, rf);
    var p := CollapseRuns(ra);
    if rb != [] {
      front := " ";
      ConsAppend(ra, rf);
      CollapseSpan(rb, ra + rf);
      AppendAssoc(front, p, back);
    } else {
      front := [];
      assert rb + (ra + rf) == ra + rf;
      AppendAssoc(front, p, back);
    }
  }

  /** Trailing whitespace after a word collapses to at most one space. */
  lemma CollapseTrailing(ra: string, rf: string) returns (back: string)
    requires AllSpace(rf)
    requires ra == [] || !IsSpace(ra[|ra| - 1])
    ensures AllSpace(back)
    ensures CollapseRuns(ra + rf) == CollapseRuns(ra) + back
  {
    CollapseAppend(ra, rf);
    if rf != [] {
      CollapseSpan(rf, []);
      assert rf + [] == rf;
      back := " ";
    } else {
      back := [];
    }
  }

  /** The name comes out empty exactly when the input is empty or all whitespace. */
  lemma SanitizeEmpty(fileName: string)
    ensures Sanitize(fileName) == [] <==> AllSpace(fileName)
  {
    var r := Sanitize(fileName);
    NonSpaceAllSpace(fileName);
    NonSpaceAllSpace(r);
  }

  // ---------------------------------------------------------------------------
  // The FileManager object
  // ---------------------------------------------------------------------------

  /** A FileManager: its download root `baseDir`, relative to the process's
      working directory `cwd`, and the paths that exist on disk. */
  class FileManager {
    const cwd: AbsolutePath
    var baseDir: Path
    var entries: set<AbsolutePath>

    /** `new FileManager(baseDir)`; the source's default is `'.'`. */
    constructor (cwd: AbsolutePath, baseDir: Path, entries: set<AbsolutePath>)
      ensures this.cwd == cwd && this.baseDir == baseDir && this.entries == entries
    {
      this.cwd := cwd;
      this.baseDir := baseDir;
      this.entries := entries;
    }

    /** The absolute directory `baseDir` denotes. */
    function Root(): AbsolutePath
      reads this`baseDir
    {
      Resolve(cwd, baseDir)
    }

    /** `path.resolve(this.baseDir, p)` */
    function ResolveIn(p: Path): (r: AbsolutePath)
      reads this`baseDir
      ensures IsAbsolute(p) ==> r == p
    {
      Resolve(Root(), p)
    }

    /** `setBaseDir(dir)`: replaces the root and returns the same object. */
    method SetBaseDir(dir: Path) returns (self: FileManager)
      modifies this`baseDir
      ensures self == this && baseDir == dir
      ensures entries == old(entries)
    {
      baseDir := dir;
      self := this;
    }

    /** `ensureDir(dirPath)`: the path resolved against the root exists afterwards
        and is returned; if it already existed nothing changes. */
    method EnsureDir(dirPath: Path) returns (fullPath: AbsolutePath)
      modifies this`entries
      ensures fullPath == ResolveIn(dirPath)
      ensures entries == old(entries) + {fullPath}
      ensures fullPath in old(entries) ==> entries == old(entries)
    {
      fullPath := ResolveIn(dirPath);
      if fullPath !in entries {
        entries := entries + {fullPath};
      }
    }

    /** `createWriteStream(fileName)`: opening the stream creates the file at the
        name resolved against the root, before anything is written to it. */
    method CreateWriteStream(fileName: Path) returns (fullPath: AbsolutePath)
      modifies this`entries
      ensures fullPath == ResolveIn(fileName)
      ensures entries == old(entries) + {fullPath}
    {
      fullPath := ResolveIn(fileName);
      entries := entries + {fullPath};
    }

    /** `fileExists(filePath)`: whether the path resolved against the current root exists. */
    method FileExists(filePath: Path) returns (present: bool)
      ensures present <==> ResolveIn(filePath) in entries
    {
      present := ResolveIn(filePath) in entries;
    }
  }
}
