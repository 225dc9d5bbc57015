/** The publication gate of src/m2harness/publication.py: selecting the one TeX artifact, and the brace scan. */
module Publication {
  import opened Wrappers
  import opened Contracts

  const FINAL_LATEX_PAPER := "final_latex_paper"

  function LowerChar(c: char): char {
    if 'A' <= c <= 'Z' then (c as int + 32) as char else c
  }

  /** `str.lower()` on ASCII text. */
  function Lower(s: string): string {
    if s == [] then [] else [LowerChar(s[0])] + Lower(s[1..])
  }

  predicate EndsWith(s: string, suffix: string) {
    |suffix| <= |s| && s[|s| - |suffix|..] == suffix
  }

  predicate IsLatexArtifact(a: Produced) {
    && a.kind == FINAL_LATEX_PAPER
    && (EndsWith(Lower(a.logicalName), ".tex") || EndsWith(Lower(a.logicalName), ".ltx"))
    && Lower(a.mediaType) in {"text/x-tex", "application/x-tex", "text/latex"}
    && a.text.Some?
  }

  function Declared(artifacts: seq<Produced>): seq<Produced> {
    if artifacts == [] then []
    else (if artifacts[0].kind == FINAL_LATEX_PAPER then [artifacts[0]] else []) + Declared(artifacts[1..])
  }

  /** `find_latex_artifact`. */
  function FindLatexArtifact(artifacts: seq<Produced>): Result<Option<Produced>> {
    var declared := Declared(artifacts);
    if |declared| > 1 then Err(ValueError)
    else if declared == [] then Ok(None)
    else if !IsLatexArtifact(declared[0]) then Err(ValueError)
    else Ok(Some(declared[0]))
  }

  /** `validate_publication_artifacts`, over the verdict of the source validator. */
  function ValidatePublication(sourceIsValid: string -> bool, artifacts: seq<Produced>): Result<()> {
    match FindLatexArtifact(artifacts)
    case Err(e) => Err(e)
    case Ok(None) => Err(ValueError)
    case Ok(Some(paper)) =>
      if sourceIsValid(if paper.text.Some? then paper.text.value else "") then Ok(()) else Err(ValueError)
  }

  /** `s` reads as the lower-case text `lower` when the case of the letters A to Z is ignored. */
  ghost predicate SameLetters(s: string, lower: string) {
    |s| == |lower| && forall i | 0 <= i < |s| ::
      if 'A' <= s[i] <= 'Z' then 'a' <= lower[i] <= 'z' && lower[i] as int - 'a' as int == s[i] as int - 'A' as int
      else lower[i] == s[i]
  }

  lemma {:induction false} LowerIs(s: string, lower: string)
    ensures Lower(s) == lower <==> SameLetters(s, lower)
    decreases |s|
  {
    if s != [] {
      if lower != [] {
        LowerIs(s[1..], lower[1..]);
        assert SameLetters(s, lower) ==> SameLetters(s[1..], lower[1..]);
        assert lower == [lower[0]] + lower[1..];
      }
    }
  }

  lemma {:induction false} LowerLength(s: string)
    ensures |Lower(s)| == |s|
    decreases |s|
  {
    if s != [] {
      LowerLength(s[1..]);
    }
  }

  lemma {:induction false} LowerSlice(s: string, k: nat, tail: string)
    requires k <= |s| && tail == s[k..]
    ensures |Lower(s)| == |s| && Lower(s)[k..] == Lower(tail)
    decreases k
  {
    LowerLength(s);
    if k > 0 {
      LowerSlice(s[1..], k - 1, tail);
    }
  }

  /** The name ends with the suffix, in any case. */
  ghost predicate NamedLike(name: string, suffix: string) {
    |suffix| <= |name| && SameLetters(name[|name| - |suffix|..], suffix)
  }

  lemma EndsLike(name: string, suffix: string)
    ensures EndsWith(Lower(name), suffix) <==> NamedLike(name, suffix)
  {
    LowerLength(name);
    if |suffix| <= |name| {
      var tail := name[|name| - |suffix|..];
      LowerSlice(name, |name| - |suffix|, tail);
      LowerIs(tail, suffix);
    }
  }

  /** Declared as the paper, with text, a TeX name and a TeX media type, in any case. */
  ghost predicate IsTexPaper(a: Produced) {
    && a.kind == "final_latex_paper" && a.text.Some?
    && (NamedLike(a.logicalName, ".tex") || NamedLike(a.logicalName, ".ltx"))
    && (SameLetters(a.mediaType, "text/x-tex") || SameLetters(a.mediaType, "application/x-tex")
        || SameLetters(a.mediaType, "text/latex"))
  }

  lemma LatexArtifactIs(a: Produced)
    ensures IsLatexArtifact(a) <==> IsTexPaper(a)
  {
    EndsLike(a.logicalName, ".tex");
    EndsLike(a.logicalName, ".ltx");
    LowerIs(a.mediaType, "text/x-tex");
    LowerIs(a.mediaType, "application/x-tex");
    LowerIs(a.mediaType, "text/latex");
  }

  /** The artifacts hold exactly one paper at position i, and it is a valid TeX artifact. */
  ghost predicate OnlyPaper(sourceIsValid: string -> bool, artifacts: seq<Produced>, i: nat) {
    && i < |artifacts|
    && IsTexPaper(artifacts[i]) && sourceIsValid(artifacts[i].text.value)
    && forall j | 0 <= j < |artifacts| && j != i :: artifacts[j].kind != FINAL_LATEX_PAPER
  }

  lemma {:induction false} DeclaredNone(artifacts: seq<Produced>)
    ensures Declared(artifacts) == [] <==> forall j | 0 <= j < |artifacts| :: artifacts[j].kind != FINAL_LATEX_PAPER
    decreases |artifacts|
  {
    if artifacts != [] {
      DeclaredNone(artifacts[1..]);
      assert forall j | 1 <= j < |artifacts| :: artifacts[j] == artifacts[1..][j - 1];
      assert forall j | 0 <= j < |artifacts[1..]| :: artifacts[1..][j] == artifacts[j + 1];
    }
  }

  lemma {:induction false} DeclaredOne(artifacts: seq<Produced>, i: nat)
    requires i < |artifacts| && artifacts[i].kind == FINAL_LATEX_PAPER
    requires forall j | 0 <= j < |artifacts| && j != i :: artifacts[j].kind != FINAL_LATEX_PAPER
    ensures Declared(artifacts) == [artifacts[i]]
    decreases |artifacts|
  {
    if i == 0 {
      DeclaredNone(artifacts[1..]);
    } else {
      DeclaredOne(artifacts[1..], i - 1);
    }
  }

  lemma {:induction false} DeclaredWitness(artifacts: seq<Produced>) returns (i: nat)
    requires |Declared(artifacts)| == 1
    ensures i < |artifacts| && artifacts[i].kind == FINAL_LATEX_PAPER && Declared(artifacts) == [artifacts[i]]
    ensures forall j | 0 <= j < |artifacts| && j != i :: artifacts[j].kind != FINAL_LATEX_PAPER
    decreases |artifacts|
  {
    if artifacts[0].kind == FINAL_LATEX_PAPER {
      i := 0;
      DeclaredNone(artifacts[1..]);
      assert forall j | 1 <= j < |artifacts| :: artifacts[j] == artifacts[1..][j - 1];
    } else {
      var k := DeclaredWitness(artifacts[1..]);
      i := k + 1;
      assert forall j | 1 <= j < |artifacts| :: artifacts[j] == artifacts[1..][j - 1];
    }
  }

  /** The gate opens exactly for one valid paper among the artifacts. */
  lemma PublicationIsOnePaper(sourceIsValid: string -> bool, artifacts: seq<Produced>)
    ensures ValidatePublication(sourceIsValid, artifacts).Ok? <==> exists i: nat :: OnlyPaper(sourceIsValid, artifacts, i)
  {
    if exists i: nat :: OnlyPaper(sourceIsValid, artifacts, i) {
      var i: nat :| OnlyPaper(sourceIsValid, artifacts, i);
      LatexArtifactIs(artifacts[i]);
      DeclaredOne(artifacts, i);
    }
    if |Declared(artifacts)| == 1 {
      var i := DeclaredWitness(artifacts);
      LatexArtifactIs(artifacts[i]);
      if ValidatePublication(sourceIsValid, artifacts).Ok? {
        assert OnlyPaper(sourceIsValid, artifacts, i);
      }
    }
  }

  // ---------- the brace scan ----------

  datatype Brace = Open | Close

  /** The braces TeX would count: a backslash takes the next character, whatever it is, out of the scan. */
  function Braces(source: string): seq<Brace>
    decreases |source|
  {
    if source == [] then []
    else if source[0] == '\\' then (if |source| == 1 then [] else Braces(source[2..]))
    else if source[0] == '{' then [Open] + Braces(source[1..])
    else if source[0] == '}' then [Close] + Braces(source[1..])
    else Braces(source[1..])
  }

  /** How many backslashes stand directly before position i. */
  function Slashes(source: string, i: nat): nat
    requires i <= |source|
  {
    if i == 0 || source[i - 1] != '\\' then 0 else Slashes(source, i - 1) + 1
  }

  /** The braces from position i on that an even number of backslashes precedes. */
  function UnescapedBraces(source: string, i: nat): seq<Brace>
    requires i <= |source|
    decreases |source| - i
  {
    if i == |source| then []
    else if source[i] == '{' && Slashes(source, i) % 2 == 0 then [Open] + UnescapedBraces(source, i + 1)
    else if source[i] == '}' && Slashes(source, i) % 2 == 0 then [Close] + UnescapedBraces(source, i + 1)
    else UnescapedBraces(source, i + 1)
  }

  lemma {:induction false} RestIsUnescaped(source: string, i: nat)
    requires i <= |source|
    ensures Rest(source, i, Slashes(source, i) % 2 == 1) == UnescapedBraces(source, i)
    decreases |source| - i
  {
    if i < |source| {
      NextCharacter(source, i);
      RestIsUnescaped(source, i + 1);
    }
  }

  /** TeX counts exactly the braces with an even number of backslashes before them. */
  lemma BracesAreUnescaped(source: string)
    ensures Braces(source) == UnescapedBraces(source, 0)
  {
    RestIsUnescaped(source, 0);
    assert source[0..] == source;
  }

  /** The balanced-bracket grammar: nothing, or a bracketed word followed by a word. */
  datatype Word = Empty | Bracketed(inner: Word, rest: Word)

  function Yield(w: Word): seq<Brace> {
    match w
    case Empty => []
    case Bracketed(inner, rest) => [Open] + Yield(inner) + [Close] + Yield(rest)
  }

  ghost predicate Balanced(s: seq<Brace>) {
    exists w :: Yield(w) == s
  }

  /** The depth at the end of a scan from `depth`, or None if it went below zero on the way. */
  function Depth(s: seq<Brace>, depth: nat): Option<nat> {
    if s == [] then Some(depth)
    else if s[0] == Open then Depth(s[1..], depth + 1)
    else if depth == 0 then None
    else Depth(s[1..], depth - 1)
  }

  lemma {:induction false} DepthConcat(a: seq<Brace>, b: seq<Brace>, depth: nat)
    ensures Depth(a + b, depth) == (match Depth(a, depth) case None => None case Some(d) => Depth(b, d))
    decreases |a|
  {
    if a == [] {
      assert a + b == b;
    } else {
      assert (a + b)[1..] == a[1..] + b;
      if a[0] == Open {
        DepthConcat(a[1..], b, depth + 1);
      } else if depth > 0 {
        DepthConcat(a[1..], b, depth - 1);
      }
    }
  }

  /** A word of the grammar returns every scan to the depth it started from. */
  lemma {:induction false} WordsKeepDepth(w: Word, depth: nat)
    ensures Depth(Yield(w), depth) == Some(depth)
    decreases w
  {
    match w {
      case Empty =>
      case Bracketed(inner, rest) =>
        var tail := Yield(inner) + ([Close] + Yield(rest));
        assert Yield(w) == [Open] + tail;
        assert Yield(w)[1..] == tail;
        WordsKeepDepth(inner, depth + 1);
        DepthConcat(Yield(inner), [Close] + Yield(rest), depth + 1);
        assert ([Close] + Yield(rest))[1..] == Yield(rest);
        WordsKeepDepth(rest, depth);
    }
  }

  /** A scan that ends at depth 0 reads a word, then for each level it descends a closing brace and a word. */
  lemma {:induction false} ScanSplits(s: seq<Brace>, depth: nat) returns (w: Word, rest: seq<Brace>)
    requires Depth(s, depth) == Some(0)
    ensures s == Yield(w) + rest
    ensures depth == 0 ==> rest == []
    ensures depth > 0 ==> rest != [] && rest[0] == Close && Depth(rest[1..], depth - 1) == Some(0)
    decreases |s|
  {
    if s == [] {
      w, rest := Empty, [];
    } else if s[0] == Close {
      w, rest := Empty, s;
    } else {
      var inner, after := ScanSplits(s[1..], depth + 1);
      assert s == [Open] + Yield(inner) + [Close] + after[1..];
      var right, tail := ScanSplits(after[1..], depth);
      w, rest := Bracketed(inner, right), tail;
      assert s == Yield(w) + rest;
    }
  }

  lemma BalancedIffDepth(s: seq<Brace>)
    ensures Balanced(s) <==> Depth(s, 0) == Some(0)
  {
    if Balanced(s) {
      var w :| Yield(w) == s;
      WordsKeepDepth(w, 0);
    }
    if Depth(s, 0) == Some(0) {
      var w, rest := ScanSplits(s, 0);
      assert Yield(w) == s;
    }
  }

  /** What the loop still has to read: the rest of the source, less one character after a backslash. */
  function Rest(source: string, i: nat, escaped: bool): seq<Brace>
    requires i <= |source|
  {
    if escaped && i < |source| then Braces(source[i + 1..]) else Braces(source[i..])
  }

  /** The brace part of `validate_latex_source`: its errors are empty exactly when the unescaped braces form a
      word of the grammar, and a closing brace without an opening one is told apart from a missing one. */
  method BraceErrors(source: string) returns (errors: seq<string>)
    ensures errors == [] <==> Balanced(UnescapedBraces(source, 0))
    ensures "unbalanced closing brace" in errors <==> Depth(UnescapedBraces(source, 0), 0) == None
    ensures errors != [] ==> errors[|errors| - 1] == "unbalanced braces"
  {
    errors := [];
    var depth: int := 0;
    var escaped := false;
    var i := 0;
    assert source[0..] == source;
    while i < |source|
      invariant 0 <= i <= |source| && errors == [] && depth >= 0
      invariant Depth(Rest(source, i, escaped), depth) == Depth(Braces(source), 0)
    {
      var character := source[i];
      NextCharacter(source, i);
      i := i + 1;
      if escaped {
        escaped := false;
        continue;
      }
      if character == '\\' {
        escaped := true;
      } else if character == '{' {
        depth := depth + 1;
      } else if character == '}' {
        depth := depth - 1;
        if depth < 0 {
          errors := errors + ["unbalanced closing brace"];
          break;
        }
      }
    }
    BracesAreUnescaped(source);
    BalancedIffDepth(Braces(source));
    if depth != 0 {
      errors := errors + ["unbalanced braces"];
    }
  }

  lemma NextCharacter(source: string, i: nat)
    requires i < |source|
    ensures Rest(source, i, true) == Rest(source, i + 1, false)
    ensures source[i] == '\\' ==> Rest(source, i, false) == Rest(source, i + 1, true)
    ensures source[i] == '{' ==> Rest(source, i, false) == [Open] + Rest(source, i + 1, false)
    ensures source[i] == '}' ==> Rest(source, i, false) == [Close] + Rest(source, i + 1, false)
    ensures source[i] != '\\' && source[i] != '{' && source[i] != '}' ==> Rest(source, i, false) == Rest(source, i + 1, false)
  {
    var s := source[i..];
    assert s[1..] == source[i + 1..];
    if |s| > 1 {
      assert s[2..] == source[i + 2..];
    }
  }
}
