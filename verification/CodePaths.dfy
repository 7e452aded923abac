/** The path tests that keep the reviewer-free text lane away from code. */
module CodePaths {
  import opened Js

  const CODE_EXTENSIONS: seq<string> :=
    ["ts", "tsx", "js", "jsx", "mjs", "cjs", "cts", "mts", "py", "go", "rs", "java", "c", "cpp", "cc", "cxx", "h", "hpp",
     "rb", "php", "swift", "kt", "scala", "sh", "bash", "zsh", "fish", "ps1", "psm1", "sql", "css", "scss", "sass", "less",
     "vue", "svelte", "astro", "graphql", "gql"]

  const CODE_DIRECTORIES: seq<string> :=
    ["src", "extensions", "lib", "libs", "app", "packages", "bin", "scripts", "test", "tests", "spec", "__tests__", "dist",
     "build", "out", "target", "node_modules", "vendor", "internal", "cmd", "pkg", "module", "modules", "core", "server",
     "client", "api", "routes", "middleware", "services", "controllers", "models", "views", "components", "hooks", "utils",
     "helpers"]

  /** Whether `word` stands in `s` at `i`, whatever its ASCII case. */
  predicate StandsAt(s: string, i: nat, word: string) {
    i + |word| <= |s| && forall k :: 0 <= k < |word| ==> AsciiLower(s[i + k]) == word[k]
  }

  predicate HasCodeExtension(path: string) {
    exists n :: 0 <= n < |CODE_EXTENSIONS|
      && |path| > |CODE_EXTENSIONS[n]| && StandsAt(path, |path| - |CODE_EXTENSIONS[n]| - 1, "." + CODE_EXTENSIONS[n])
  }

  predicate HasCodeDirectory(path: string) {
    exists n, i :: 0 <= n < |CODE_DIRECTORIES| && 0 <= i < |path|
      && (i == 0 || path[i - 1] == '/') && StandsAt(path, i, CODE_DIRECTORIES[n] + "/")
  }

  predicate CodeLooking(path: string) {
    !Blank(path) && (HasCodeExtension(path) || HasCodeDirectory(path))
  }

  /** The text with its ASCII letters in lower case. */
  function LowerCase(s: string): string {
    seq(|s|, i requires 0 <= i < |s| => if 'A' <= s[i] <= 'Z' then s[i] - 'A' + 'a' else s[i])
  }

  predicate EndsWith(s: string, end: string) {
    |end| <= |s| && s[|s| - |end|..] == end
  }

  predicate ReadsAt(s: string, i: int, word: string) {
    0 <= i && i + |word| <= |s| && s[i..i + |word|] == word
  }

  lemma StandingIsReading(s: string, i: nat, word: string)
    ensures StandsAt(s, i, word) <==> ReadsAt(LowerCase(s), i, word)
  {
    var low := LowerCase(s);
    if StandsAt(s, i, word) {
      assert low[i..i + |word|] == word;
    }
    if ReadsAt(low, i, word) {
      forall k | 0 <= k < |word|
        ensures AsciiLower(s[i + k]) == word[k]
      {
        assert low[i..i + |word|][k] == low[i + k];
      }
    }
  }

  lemma ExtensionIsEnd(path: string, n: nat)
    requires n < |CODE_EXTENSIONS|
    ensures |path| > |CODE_EXTENSIONS[n]| && StandsAt(path, |path| - |CODE_EXTENSIONS[n]| - 1, "." + CODE_EXTENSIONS[n])
            <==> EndsWith(LowerCase(path), "." + CODE_EXTENSIONS[n])
  {
    var word := "." + CODE_EXTENSIONS[n];
    hide StandsAt, CODE_EXTENSIONS;
    if |path| >= |word| {
      StandingIsReading(path, |path| - |word|, word);
      assert LowerCase(path)[|path| - |word|..|path|] == LowerCase(path)[|path| - |word|..];
    }
  }

  /** A path is code when, in lower case, it ends in a code extension or has a code directory at its start or behind a slash. */
  lemma CodeLookingIff(path: string)
    ensures CodeLooking(path)
            <==> !Blank(path)
                 && ((exists n :: 0 <= n < |CODE_EXTENSIONS| && EndsWith(LowerCase(path), "." + CODE_EXTENSIONS[n]))
                     || exists n, i :: 0 <= n < |CODE_DIRECTORIES| && 0 <= i < |path| && (i == 0 || path[i - 1] == '/')
                          && ReadsAt(LowerCase(path), i, CODE_DIRECTORIES[n] + "/"))
  {
    hide StandsAt, ReadsAt, EndsWith, LowerCase, CODE_EXTENSIONS, CODE_DIRECTORIES;
    forall n | 0 <= n < |CODE_EXTENSIONS|
      ensures |path| > |CODE_EXTENSIONS[n]| && StandsAt(path, |path| - |CODE_EXTENSIONS[n]| - 1, "." + CODE_EXTENSIONS[n])
              <==> EndsWith(LowerCase(path), "." + CODE_EXTENSIONS[n])
    {
      ExtensionIsEnd(path, n);
    }
    forall n, i | 0 <= n < |CODE_DIRECTORIES| && 0 <= i < |path|
      ensures StandsAt(path, i, CODE_DIRECTORIES[n] + "/") <==> ReadsAt(LowerCase(path), i, CODE_DIRECTORIES[n] + "/")
    {
      StandingIsReading(path, i, CODE_DIRECTORIES[n] + "/");
    }
  }

  predicate IsLineTerminator(c: char) {
    c == '\n' || c == '\r' || c == '\U{2028}' || c == '\U{2029}'
  }

  /** The text before the first `#` that no line break follows. */
  function StripAnchor(s: string): string {
    if s == [] then []
    else if s[0] == '#' && forall k :: 0 <= k < |s| ==> !IsLineTerminator(s[k]) then []
    else [s[0]] + StripAnchor(s[1..])
  }

  function RefPath(ref: string): string {
    Trim(StripAnchor(ref))
  }

  predicate AnchorAt(s: string, k: int) {
    && 0 <= k < |s| && s[k] == '#'
    && forall j :: k <= j < |s| ==> s[j] != '\n' && s[j] != '\r' && s[j] as int != 0x2028 && s[j] as int != 0x2029
  }

  /** What is cut off is the first `#` with no line break behind it, and all that follows. */
  lemma {:induction false} StripAnchorCuts(s: string)
    ensures exists k :: 0 <= k <= |s| && StripAnchor(s) == s[..k] && (k < |s| ==> AnchorAt(s, k)) && forall j :: 0 <= j < k ==> !AnchorAt(s, j)
  {
    if s == [] {
      assert StripAnchor(s) == s[..0];
    } else if AnchorAt(s, 0) {
      assert StripAnchor(s) == s[..0];
    } else {
      StripAnchorCuts(s[1..]);
      var rest := s[1..];
      var k :| 0 <= k <= |rest| && StripAnchor(rest) == rest[..k] && (k < |rest| ==> AnchorAt(rest, k)) && forall j :: 0 <= j < k ==> !AnchorAt(rest, j);
      assert s[..k + 1] == [s[0]] + rest[..k];
      forall j | 0 <= j < k + 1
        ensures !AnchorAt(s, j)
      {
        if j > 0 {
          AnchorShifts(s, j);
        }
      }
      AnchorShifts(s, k + 1);
    }
  }

  lemma AnchorShifts(s: string, j: int)
    requires s != [] && j > 0
    ensures AnchorAt(s, j) <==> AnchorAt(s[1..], j - 1)
  {
    var rest := s[1..];
    assert forall i :: 0 <= i < |rest| ==> rest[i] == s[i + 1];
    if AnchorAt(rest, j - 1) {
      forall i | j <= i < |s|
        ensures s[i] != '\n' && s[i] != '\r' && s[i] as int != 0x2028 && s[i] as int != 0x2029
      {
        assert s[i] == rest[i - 1];
      }
    }
  }

  /** An anchor hides nothing: a path followed by `#` and any one-line text is judged as the path. */
  lemma {:induction false} AnchorsAreIgnored(path: string, anchor: string)
    requires '#' !in path
    requires forall k :: 0 <= k < |anchor| ==> !IsLineTerminator(anchor[k])
    ensures StripAnchor(path + "#" + anchor) == path
  {
    if path == [] {
      assert path + "#" + anchor == "#" + anchor;
    } else {
      assert (path + "#" + anchor)[1..] == path[1..] + "#" + anchor;
      AnchorsAreIgnored(path[1..], anchor);
    }
  }

  lemma CodeWordsAreNotEmpty()
    ensures forall n :: 0 <= n < |CODE_EXTENSIONS| ==> CODE_EXTENSIONS[n] != ""
    ensures forall n :: 0 <= n < |CODE_DIRECTORIES| ==> CODE_DIRECTORIES[n] != ""
  {
  }

  /** A one-letter file name at the root of the repository is not code. */
  lemma OneLetterIsNotCode(path: string)
    requires |path| == 1
    ensures !CodeLooking(path)
  {
    CodeWordsAreNotEmpty();
  }
}
