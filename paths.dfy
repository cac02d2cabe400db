/**
 * The download worker's path handling: `sanitize_filename` and the
 * composition `base_dir / folder / name` of the file's target path.
 * Paths are sequences of components, as `pathlib` treats them.
 */
module Paths {
  import opened Util

  /** The characters `sanitize_filename` treats as illegal: \ / : * ? " < > | */
  predicate IsIllegal(c: char)
  {
    c == '\\' || c == '/' || c == ':' || c == '*' || c == '?' || c == '"' || c == '<' || c == '>' || c == '|'
  }

  /** The regular-expression substitution: each illegal character becomes a space. */
  function ReplaceIllegal(s: string): (r: string)
    ensures |r| == |s|
    ensures forall i :: 0 <= i < |s| ==> r[i] == if IsIllegal(s[i]) then ' ' else s[i]
  {
    seq(|s|, i requires 0 <= i < |s| => if IsIllegal(s[i]) then ' ' else s[i])
  }

  /**
   * `sanitize_filename`: illegal characters to spaces, strip, then ".." to
   * "_" and every remaining "." to a space. The result holds no illegal
   * character (so no path separator) and no dot.
   */
  function Sanitize(name: string): (r: string)
    ensures forall i :: 0 <= i < |r| ==> !IsIllegal(r[i]) && r[i] != '.'
    ensures |r| <= |name|
  {
    var stripped := Strip(ReplaceIllegal(name));
    var undotted := Replace(stripped, "..", "_");
    var r := Replace(undotted, ".", " ");
    SanitizeChars(name, stripped, undotted, r);
    ReplaceNoLonger(stripped, "..", "_");
    ReplaceNoLonger(undotted, ".", " ");
    r
  }

  lemma SanitizeChars(name: string, stripped: string, undotted: string, r: string)
    requires stripped == Strip(ReplaceIllegal(name))
    requires undotted == Replace(stripped, "..", "_")
    requires r == Replace(undotted, ".", " ")
    ensures forall i :: 0 <= i < |r| ==> !IsIllegal(r[i]) && r[i] != '.'
  {
    StrippedLegal(name);
    forall ch | ch in undotted ensures !IsIllegal(ch) {
      ReplaceChars(stripped, "..", "_", ch);
    }
    ReplaceRemovesChar(undotted, '.', " ");
    forall k | 0 <= k < |r| ensures !IsIllegal(r[k]) && r[k] != '.' {
      ReplaceChars(undotted, ".", " ", r[k]);
    }
  }

  /** Stripping keeps a slice, so no illegal character comes back. */
  lemma StrippedLegal(name: string)
    ensures forall ch :: ch in Strip(ReplaceIllegal(name)) ==> !IsIllegal(ch)
  {
    var t := ReplaceIllegal(name);
    StripKeeps(t);
    forall ch | ch in t ensures !IsIllegal(ch) {
      var k :| 0 <= k < |t| && t[k] == ch;
    }
  }

  /** Replacing by text no longer than the pattern never makes the string longer. */
  lemma {:induction false} ReplaceNoLonger(s: string, pat: string, repl: string)
    requires pat != [] && |repl| <= |pat|
    ensures |Replace(s, pat, repl)| <= |s|
    decreases |s|
  {
    if StartsWith(s, pat) {
      ReplaceNoLonger(s[|pat|..], pat, repl);
    } else if s != [] {
      ReplaceNoLonger(s[1..], pat, repl);
    }
  }

  /** `a / b` for a relative component `b`: an empty one adds nothing. */
  function PathJoin(base: seq<string>, part: string): (p: seq<string>)
    ensures part == "" ==> p == base
    ensures part != "" ==> p == base + [part]
  {
    if part == "" then base else base + [part]
  }

  /**
   * `full_path`: the sanitised folder path (with "/" replaced by the
   * platform separator `sep`) and the sanitised file name under `base`.
   */
  function FullPath(base: seq<string>, folderPath: string, fileName: string, sep: char): seq<string>
  {
    var safeFolder := Replace(Sanitize(folderPath), "/", [sep]);
    PathJoin(PathJoin(base, safeFolder), Sanitize(fileName))
  }

  /** A component `Sanitize` can produce: non-empty, no separator, no dot. */
  predicate SafeComponent(s: string)
  {
    s != "" && forall i :: 0 <= i < |s| ==> !IsIllegal(s[i]) && s[i] != '.'
  }

  lemma SanitizeSafe(name: string)
    ensures Sanitize(name) != "" ==> SafeComponent(Sanitize(name))
    ensures '/' !in Sanitize(name)
  {
    assert IsIllegal('/');
  }

  /**
   * However deeply the folder path is nested, the target is at most two
   * components below `base`: the whole folder path collapses into a single
   * directory name (the separator replacement never finds a "/"), and
   * neither added component contains a separator or a dot.
   */
  lemma FullPathShape(base: seq<string>, folderPath: string, fileName: string, sep: char)
    ensures var p := FullPath(base, folderPath, fileName, sep);
      && |base| <= |p| <= |base| + 2
      && p[..|base|] == base
      && (forall k :: |base| <= k < |p| ==> SafeComponent(p[k]))
      && (Sanitize(folderPath) != "" && Sanitize(fileName) != "" ==>
            p == base + [Sanitize(folderPath), Sanitize(fileName)])
  {
    var folder, name := Sanitize(folderPath), Sanitize(fileName);
    SanitizeSafe(folderPath);
    SanitizeSafe(fileName);
    ReplaceAbsentChar(folder, '/', [sep]);
    var mid := PathJoin(base, folder);
    var p := PathJoin(mid, name);
    assert p == FullPath(base, folderPath, fileName, sep);
    assert mid[..|base|] == base;
    assert p[..|base|] == base;
  }

  /** The nesting a "/"-joined folder path describes is lost: both folders land in one name. */
  lemma NestedFoldersCollapse(base: seq<string>, outer: string, inner: string, fileName: string, sep: char)
    requires Sanitize(outer + "/" + inner) != "" && Sanitize(fileName) != ""
    ensures FullPath(base, outer + "/" + inner, fileName, sep)
            == base + [Sanitize(outer + "/" + inner), Sanitize(fileName)]
  {
    FullPathShape(base, outer + "/" + inner, fileName, sep);
  }

  lemma NoDotPair(s: string)
    requires |s| < 2 || s[0] != '.' || s[1] != '.'
    ensures !StartsWith(s, "..")
  {
    if |s| >= 2 {
      assert s[..2][0] == s[0] && s[..2][1] == s[1];
    }
  }

  lemma DotFirst(s: string)
    ensures StartsWith(s, ".") <==> |s| > 0 && s[0] == '.'
  {
    if |s| > 0 {
      assert s[..1][0] == s[0];
    }
  }

  /**
   * A name free of illegal characters and dots, not empty and without
   * surrounding whitespace, is left as it is.
   */
  lemma SanitizeClean(name: string)
    requires name != [] && !IsSpace(name[0]) && !IsSpace(name[|name| - 1])
    requires forall k :: 0 <= k < |name| ==> !IsIllegal(name[k]) && name[k] != '.'
    ensures Sanitize(name) == name
  {
    assert ReplaceIllegal(name) == name;
    assert StripStart(name) == 0;
    assert name[0..] == name;
    assert StripEnd(name) == |name|;
    assert Strip(name) == name[0..|name|] == name;
    ReplaceAbsentCharLong(name);
  }

  /** Worked case: the extension separator is replaced like any other dot. */
  lemma SanitizeMangledExtension()
    ensures Sanitize("t.mp3") == "t mp3"
  {
    StripExtensionExample();
    PairExtensionExample();
    DotExtensionExample();
    SanitizeOf("t.mp3", "t.mp3", "t.mp3", "t mp3");
  }

  lemma StripExtensionExample()
    ensures Strip(ReplaceIllegal("t.mp3")) == "t.mp3"
  {
    assert ReplaceIllegal("t.mp3") == "t.mp3";
    assert StripStart("t.mp3") == 0;
    assert StripEnd("t.mp3") == 5;
  }

  lemma PairExtensionExample()
    ensures Replace("t.mp3", "..", "_") == "t.mp3"
  {
    ReplacePairAbsent("mp3");
    NoDotPair(".mp3");
    NoDotPair("t.mp3");
    assert "t.mp3"[1..] == ".mp3";
    assert ".mp3"[1..] == "mp3";
    assert Replace(".mp3", "..", "_") == ".mp3";
  }

  lemma DotExtensionExample()
    ensures Replace("t.mp3", ".", " ") == "t mp3"
  {
    ReplaceAbsentChar("mp3", '.', " ");
    DotFirst(".mp3");
    DotFirst("t.mp3");
    assert "t.mp3"[1..] == ".mp3";
    assert ".mp3"[1..] == "mp3";
    assert Replace(".mp3", ".", " ") == " mp3";
  }

  /** Worked case: a "/" between two folder titles becomes a space. */
  lemma SanitizeNestedFolder()
    ensures Sanitize("Disc1/Sub") == "Disc1 Sub"
  {
    var name, clean := "Disc1/Sub", "Disc1 Sub";
    assert |ReplaceIllegal(name)| == |clean|;
    forall k | 0 <= k < |clean| ensures ReplaceIllegal(name)[k] == clean[k] {
      assert IsIllegal(name[k]) <==> k == 5;
    }
    assert ReplaceIllegal(name) == clean;
    assert forall k :: 0 <= k < |clean| ==> !IsIllegal(clean[k]) && clean[k] != '.';
    SanitizeCleanAfterIllegal(name, clean);
  }

  /** A name whose illegal characters turn it into a clean name sanitises to that name. */
  lemma SanitizeCleanAfterIllegal(name: string, clean: string)
    requires ReplaceIllegal(name) == clean
    requires clean != [] && !IsSpace(clean[0]) && !IsSpace(clean[|clean| - 1])
    requires forall k :: 0 <= k < |clean| ==> clean[k] != '.'
    ensures Sanitize(name) == clean
  {
    assert StripStart(clean) == 0;
    assert clean[0..] == clean;
    assert StripEnd(clean) == |clean|;
    assert Strip(clean) == clean[0..|clean|] == clean;
    ReplaceAbsentCharLong(clean);
  }

  /** `Sanitize` from its three stages: strip, rewrite "..", rewrite ".". */
  lemma SanitizeOf(name: string, stripped: string, undotted: string, r: string)
    requires Strip(ReplaceIllegal(name)) == stripped
    requires Replace(stripped, "..", "_") == undotted
    requires Replace(undotted, ".", " ") == r
    ensures Sanitize(name) == r
  {
  }

  /** Worked case: "..", matched before single dots, becomes "_". */
  lemma SanitizeDotPair()
    ensures Sanitize("a..b") == "a_b"
  {
    DotPairStripped();
    DotPairRewritten();
    ReplaceAbsentChar("a_b", '.', " ");
    SanitizeOf("a..b", "a..b", "a_b", "a_b");
  }

  lemma DotPairStripped()
    ensures Strip(ReplaceIllegal("a..b")) == "a..b"
  {
    assert ReplaceIllegal("a..b") == "a..b";
    assert StripStart("a..b") == 0;
    assert StripEnd("a..b") == 4;
  }

  lemma DotPairRewritten()
    ensures Replace("a..b", "..", "_") == "a_b"
  {
    NoDotPair("a..b");
    NoDotPair("b");
    assert "a..b"[1..] == "..b";
    assert "..b"[2..] == "b";
    assert "b"[1..] == [];
    assert Replace("b", "..", "_") == "b";
    assert StartsWith("..b", "..");
    assert Replace("..b", "..", "_") == "_b";
  }

  /** Worked case: stripping comes before the dot rewrite, so a trailing dot becomes a trailing space. */
  lemma SanitizeTrailingDot()
    ensures Sanitize(" x. ") == "x "
  {
    TrailingDotStripped();
    TrailingDotRewritten();
    SanitizeOf(" x. ", "x.", "x.", "x ");
  }

  lemma TrailingDotStripped()
    ensures Strip(ReplaceIllegal(" x. ")) == "x."
  {
    assert ReplaceIllegal(" x. ") == " x. ";
    assert StripStart(" x. ") == 1;
    assert " x. "[1..] == "x. ";
    assert StripEnd("x. ") == 2;
  }

  lemma TrailingDotRewritten()
    ensures Replace("x.", "..", "_") == "x."
    ensures Replace("x.", ".", " ") == "x "
  {
    NoDotPair("x.");
    NoDotPair(".");
    assert "x."[1..] == ".";
    assert "."[1..] == [];
    DotFirst("x.");
    DotFirst(".");
  }

  lemma ReplaceAbsentCharLong(s: string)
    requires '.' !in s
    ensures Replace(s, "..", "_") == s && Replace(s, ".", " ") == s
  {
    ReplaceAbsentChar(s, '.', " ");
    ReplacePairAbsent(s);
  }

  lemma {:induction false} ReplacePairAbsent(s: string)
    requires '.' !in s
    ensures Replace(s, "..", "_") == s
    decreases |s|
  {
    if s != [] {
      assert !StartsWith(s, "..") by {
        if |s| >= 2 { assert s[..2][0] == s[0]; }
      }
      ReplacePairAbsent(s[1..]);
      assert s == [s[0]] + s[1..];
    }
  }
}
