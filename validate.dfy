/**
 * The IPA validator (`validateIPA`): it decomposes and trims the input, then
 * collects issues in three passes (a whitelist scan, start-of-string checks
 * and a left-to-right context scan), never stopping at the first one.
 */
module Validate {
  import opened Text

  const StressPrimary: CodeUnit := 0x02C8
  const StressSecondary: CodeUnit := 0x02CC
  const LengthLong: CodeUnit := 0x02D0
  const LengthHalf: CodeUnit := 0x02D1

  predicate IsStress(c: CodeUnit)
  {
    c == StressPrimary || c == StressSecondary
  }

  predicate IsLength(c: CodeUnit)
  {
    c == LengthLong || c == LengthHalf
  }

  /** `SAFE_PUNCT`: space . , ' - | and the double vertical line. */
  predicate IsSafePunct(c: CodeUnit)
  {
    c == 0x20 || c == 0x2E || c == 0x2C || c == 0x27 || c == 0x2D || c == 0x7C || c == 0x2016
  }

  /** `VOWELS`, the minimal vowel set used by the tone-letter check. */
  const Vowels: set<CodeUnit> := {
    0x69, 0x79, 0x268, 0x289, 0x26F, 0x75, 0x26A, 0x28F, 0x28A,
    0x65, 0xF8, 0x258, 0x275, 0x264, 0x6F, 0x259,
    0x25B, 0x153, 0x25C, 0x25E, 0x28C, 0x254,
    0xE6, 0x250, 0x61, 0x276, 0x251, 0x252}

  predicate IsVowel(c: CodeUnit)
  {
    c in Vowels
  }

  /** The Chao tone letters U+02E5..U+02E9 (`/[˥-˩]/u`). */
  predicate IsToneLetter(c: CodeUnit)
  {
    0x02E5 <= c <= 0x02E9
  }

  /**
   * The source text of `RE.ALLOWED`: thirteen `X-Y` ranges and three single
   * code points joined with no enclosing brackets. Outside a character class
   * `-` is a literal, so the pattern denotes this 42-unit literal run.
   */
  const AllowedPattern: Str := [
    0x0020, 0x2D, 0x007E,  0x00A0, 0x2D, 0x024F,  0x0250, 0x2D, 0x02AF,
    0x02B0, 0x2D, 0x02FF,  0x0300, 0x2D, 0x036F,  0x1AB0, 0x2D, 0x1AFF,
    0x1DC0, 0x2D, 0x1DFF,  0x1D00, 0x2D, 0x1D7F,  0x1D80, 0x2D, 0x1DBF,
    0x1E00, 0x2D, 0x1EFF,  0x2000, 0x2D, 0x206F,  0x02E5, 0x2D, 0x02E9,
    0xA700, 0x2D, 0xA71F,  0x0361, 0x035C, 0x2016]

  /** `RE.ALLOWED.test(s)` as the pattern is written. */
  predicate AllowedTest(s: Str)
  {
    ContainsRun(s, AllowedPattern)
  }

  /** The character class the whitelist evidently means: the listed ranges and code points. */
  predicate IntendedAllowed(c: CodeUnit)
  {
    (0x0020 <= c <= 0x007E) || (0x00A0 <= c <= 0x024F) || (0x0250 <= c <= 0x02AF) ||
    (0x02B0 <= c <= 0x02FF) || (0x0300 <= c <= 0x036F) || (0x1AB0 <= c <= 0x1AFF) ||
    (0x1DC0 <= c <= 0x1DFF) || (0x1D00 <= c <= 0x1D7F) || (0x1D80 <= c <= 0x1DBF) ||
    (0x1E00 <= c <= 0x1EFF) || (0x2000 <= c <= 0x206F) || (0x02E5 <= c <= 0x02E9) ||
    (0xA700 <= c <= 0xA71F) || c == 0x0361 || c == 0x035C || c == 0x2016
  }

  /** Which whitelist the first pass applies: the regular expression as written, or the intended class. */
  datatype Whitelist = AsWritten | Intended

  predicate Admits(w: Whitelist, c: CodeUnit)
  {
    match w
    case AsWritten => AllowedTest([c])
    case Intended => IntendedAllowed(c)
  }

  /** The rule an issue reports; `Message` gives its text. */
  datatype Rule =
    | EmptyInput
    | UnsupportedCharacter
    | CombiningStart
    | StressOnly
    | StressBeforePunct
    | ConsecutiveStress
    | LengthStart
    | DiacriticDetached
    | LengthDetached
    | ToneContext

  function Message(r: Rule): Str
  {
    match r
    case EmptyInput => Lit("Empty input")
    case UnsupportedCharacter => Lit("Unsupported character (not IPA or related mark)")
    case CombiningStart => Lit("Cannot start with a combining diacritic")
    case StressOnly => Lit("Stress mark cannot be the only/last character")
    case StressBeforePunct => Lit("Stress mark cannot be followed by space or punctuation")
    case ConsecutiveStress => Lit("Consecutive stress marks are not allowed")
    case LengthStart => Lit("Length mark must follow a symbol")
    case DiacriticDetached => Lit("Diacritic must attach to a preceding base symbol")
    case LengthDetached => Lit("Length mark must follow a base symbol")
    case ToneContext => Lit("Tone letter should follow a vowel segment")
  }

  /**
   * `ValidationIssue`. The source's `char` is always one code unit `nfd[i]`,
   * or the empty string for the whole-string issue: here `Some(unit)` or `None`.
   */
  datatype Issue = Issue(index: nat, ch: Option<CodeUnit>, rule: Rule)

  datatype Validation = Validation(ok: bool, issues: seq<Issue>, cleaned: Str)

  /** Pass 1 over the first `n` units: one issue per unit the whitelist refuses, in index order. */
  function WhitelistIssues(w: Whitelist, s: Str, n: nat): seq<Issue>
    requires n <= |s|
  {
    if n == 0 then []
    else WhitelistIssues(w, s, n - 1) +
         (if Admits(w, s[n - 1]) then [] else [Issue(n - 1, Some(s[n - 1]), UnsupportedCharacter)])
  }

  /** Pass 2: the start-of-string checks, in the order the source runs them. */
  function StartIssues(u: Unicode, s: Str): seq<Issue>
    requires |s| > 0
  {
    var first := s[0];
    (if u.isMark(first) then [Issue(0, Some(first), CombiningStart)] else []) +
    (if !IsStress(first) then []
     else if |s| == 1 then [Issue(0, Some(first), StressOnly)]
     else if IsSafePunct(s[1]) then [Issue(0, Some(first), StressBeforePunct)]
     else if IsStress(s[1]) then [Issue(1, Some(s[1]), ConsecutiveStress)]
     else []) +
    (if IsLength(first) then [Issue(0, Some(first), LengthStart)] else [])
  }

  /** The checks of the context scan (3a, 3b, 3c, 3d), in the order the source runs them. */
  const ContextChecks: seq<Rule> := [DiacriticDetached, LengthDetached, ConsecutiveStress, ToneContext]

  /** Whether context check `r` fires at position `i`. */
  predicate ContextFires(u: Unicode, s: Str, i: nat, r: Rule)
    requires i < |s|
  {
    match r
    case DiacriticDetached => u.isMark(s[i]) && (i == 0 || IsSafePunct(s[i - 1]))
    case LengthDetached => IsLength(s[i]) && (i == 0 || u.isMark(s[i - 1]) || IsSafePunct(s[i - 1]))
    case ConsecutiveStress => IsStress(s[i]) && i > 0 && IsStress(s[i - 1])
    case ToneContext => IsToneLetter(s[i]) && (i == 0 || (!IsVowel(s[i - 1]) && !u.isMark(s[i - 1])))
    case _ => false
  }

  /** One issue at position `i` for each check of `checks` that fires there, in the order of `checks`. */
  function Fired(u: Unicode, s: Str, i: nat, checks: seq<Rule>): seq<Issue>
    requires i < |s|
  {
    if checks == [] then []
    else (if ContextFires(u, s, i, checks[0]) then [Issue(i, Some(s[i]), checks[0])] else []) +
         Fired(u, s, i, checks[1..])
  }

  /** What the context scan reports at position `i`. */
  function IssuesAt(u: Unicode, s: Str, i: nat): seq<Issue>
    requires i < |s|
  {
    Fired(u, s, i, ContextChecks)
  }

  /** Pass 3 over the first `n` positions. */
  function ContextIssues(u: Unicode, s: Str, n: nat): seq<Issue>
    requires n <= |s|
  {
    Join(Positions(u, s), n)
  }

  /** What the context scan reports at each position. */
  function Positions(u: Unicode, s: Str): seq<seq<Issue>>
  {
    seq(|s|, i requires 0 <= i < |s| => IssuesAt(u, s, i))
  }

  /** Pass 3 over `n` positions is pass 3 over the first `n - 1`, then what position `n - 1` reports. */
  lemma ContextIssuesStep(u: Unicode, s: Str, n: nat)
    requires 0 < n <= |s|
    ensures ContextIssues(u, s, n) == ContextIssues(u, s, n - 1) + IssuesAt(u, s, n - 1)
  {
  }

  /** The issues of a non-empty cleaned string: the three passes, one after the other. */
  function Check(w: Whitelist, u: Unicode, s: Str): seq<Issue>
    requires s != []
  {
    WhitelistIssues(w, s, |s|) + StartIssues(u, s) + ContextIssues(u, s, |s|)
  }

  /** The result of `validateIPA`, with the first pass using whitelist `w`. */
  function ValidateWith(w: Whitelist, u: Unicode, raw: Str): Validation
  {
    var s := Trim(u.nfd(raw));
    if s == [] then Validation(false, [Issue(0, None, EmptyInput)], [])
    else Validation(Check(w, u, s) == [], Check(w, u, s), s)
  }

  /** `validateIPA` as the source is written. */
  function Validate(u: Unicode, raw: Str): Validation
  {
    ValidateWith(AsWritten, u, raw)
  }

  /**
   * `validateIPA`: pushes onto `issues` across the whitelist loop, the start
   * checks and the context loop, with an early return for empty input. With
   * `w == AsWritten` it is the source as written; `Intended` swaps in the
   * character class the whitelist evidently means.
   */
  method ValidateIPA(w: Whitelist, u: Unicode, raw: Str) returns (v: Validation)
    ensures v == ValidateWith(w, u, raw)
    ensures v.ok <==> v.issues == []
    ensures v.cleaned == Trim(u.nfd(raw))
    ensures v.cleaned == [] ==> v.issues == [Issue(0, None, EmptyInput)] && !v.ok
  {
    var nfd := Trim(u.nfd(raw));
    var issues: seq<Issue> := [];

    if nfd == [] {
      return Validation(false, [Issue(0, None, EmptyInput)], []);
    }

    // 1) character whitelist
    var i := 0;
    while i < |nfd|
      invariant 0 <= i <= |nfd|
      invariant issues == WhitelistIssues(w, nfd, i)
    {
      var ch := nfd[i];
      if !Admits(w, ch) {
        issues := issues + [Issue(i, Some(ch), UnsupportedCharacter)];
      }
      i := i + 1;
    }

    // 2) illegal starts
    issues := PushStartIssues(u, nfd, issues);

    // 3) context checks
    ghost var beforeContext := issues;
    i := 0;
    while i < |nfd|
      invariant 0 <= i <= |nfd|
      invariant issues == beforeContext + ContextIssues(u, nfd, i)
    {
      issues := PushContextIssues(u, nfd, i, issues);
      i := i + 1;
    }

    assert issues == Check(w, u, nfd);
    v := Validation(issues == [], issues, nfd);
  }

  /** The start-of-string block of `validateIPA`, pushing onto `issues`. */
  method PushStartIssues(u: Unicode, nfd: Str, issues: seq<Issue>) returns (out: seq<Issue>)
    requires nfd != []
    ensures out == issues + StartIssues(u, nfd)
  {
    out := issues;
    var first := nfd[0];
    if u.isMark(first) {
      out := out + [Issue(0, Some(first), CombiningStart)];
    }
    if first == StressPrimary || first == StressSecondary {
      if |nfd| == 1 {
        out := out + [Issue(0, Some(first), StressOnly)];
      } else if IsSafePunct(nfd[1]) {
        out := out + [Issue(0, Some(first), StressBeforePunct)];
      } else if nfd[1] == StressPrimary || nfd[1] == StressSecondary {
        out := out + [Issue(1, Some(nfd[1]), ConsecutiveStress)];
      }
    }
    if first == LengthLong || first == LengthHalf {
      out := out + [Issue(0, Some(first), LengthStart)];
    }
  }

  /** One iteration of the context loop of `validateIPA`: checks 3a to 3d at position `i`. */
  method PushContextIssues(u: Unicode, nfd: Str, i: nat, issues: seq<Issue>) returns (out: seq<Issue>)
    requires i < |nfd|
    ensures out == issues + IssuesAt(u, nfd, i)
  {
    out := issues;
    var ch := nfd[i];
    if u.isMark(ch) {
      if i == 0 || IsSafePunct(nfd[i - 1]) {
        out := out + [Issue(i, Some(ch), DiacriticDetached)];
      }
    }
    assert out == issues + Flag(u, nfd, i, DiacriticDetached);
    ghost var o1 := out;
    if ch == LengthLong || ch == LengthHalf {
      if i == 0 || u.isMark(nfd[i - 1]) || IsSafePunct(nfd[i - 1]) {
        out := out + [Issue(i, Some(ch), LengthDetached)];
      }
    }
    assert out == o1 + Flag(u, nfd, i, LengthDetached);
    ghost var o2 := out;
    if ch == StressPrimary || ch == StressSecondary {
      if i > 0 && (nfd[i - 1] == StressPrimary || nfd[i - 1] == StressSecondary) {
        out := out + [Issue(i, Some(ch), ConsecutiveStress)];
      }
    }
    assert out == o2 + Flag(u, nfd, i, ConsecutiveStress);
    ghost var o3 := out;
    if IsToneLetter(ch) {
      if i == 0 || (!IsVowel(nfd[i - 1]) && !u.isMark(nfd[i - 1])) {
        out := out + [Issue(i, Some(ch), ToneContext)];
      }
    }
    assert out == o3 + Flag(u, nfd, i, ToneContext);
    IssuesAtUnfold(u, nfd, i);
  }

  /** An issue for position `i` of check `r`, when that check fires there. */
  function Flag(u: Unicode, s: Str, i: nat, r: Rule): seq<Issue>
    requires i < |s|
  {
    if ContextFires(u, s, i, r) then [Issue(i, Some(s[i]), r)] else []
  }

  /** The context scan at one position runs checks 3a, 3b, 3c and 3d in that order. */
  lemma IssuesAtUnfold(u: Unicode, s: Str, i: nat)
    requires i < |s|
    ensures IssuesAt(u, s, i) ==
      Flag(u, s, i, DiacriticDetached) + Flag(u, s, i, LengthDetached) +
      Flag(u, s, i, ConsecutiveStress) + Flag(u, s, i, ToneContext)
  {
    var c4 := [ToneContext];
    var c3 := [ConsecutiveStress] + c4;
    var c2 := [LengthDetached] + c3;
    assert c2[1..] == c3 && c3[1..] == c4 && c4[1..] == [];
    assert ContextChecks == [DiacriticDetached] + c2;
    assert Fired(u, s, i, c4) == Flag(u, s, i, ToneContext);
    assert Fired(u, s, i, c3) == Flag(u, s, i, ConsecutiveStress) + Fired(u, s, i, c4);
    assert Fired(u, s, i, c2) == Flag(u, s, i, LengthDetached) + Fired(u, s, i, c3);
  }

  // ---- the whitelist as written ----

  /** No single code unit matches the written whitelist. */
  lemma NoUnitAllowed(c: CodeUnit)
    ensures !AllowedTest([c])
  {
    ContainsRunNeedsLength([c], AllowedPattern);
  }

  /** As written, the whitelist pass flags every position of the string, in index order. */
  lemma {:induction false} WhitelistFlagsEveryUnit(s: Str, n: nat)
    requires n <= |s|
    ensures WhitelistIssues(AsWritten, s, n) ==
            seq(n, i requires 0 <= i < n => Issue(i, Some(s[i]), UnsupportedCharacter))
  {
    if n > 0 {
      WhitelistFlagsEveryUnit(s, n - 1);
      NoUnitAllowed(s[n - 1]);
    }
  }

  /**
   * As written, validation never succeeds: empty input fails with "Empty
   * input", and any other input opens its issue list with one "Unsupported
   * character" issue per code unit of the cleaned string.
   */
  lemma NeverOk(u: Unicode, raw: Str)
    ensures !Validate(u, raw).ok
    ensures var v := Validate(u, raw);
      v.cleaned != [] ==>
        |v.issues| >= |v.cleaned| &&
        v.issues[..|v.cleaned|] ==
          seq(|v.cleaned|, i requires 0 <= i < |v.cleaned| => Issue(i, Some(v.cleaned[i]), UnsupportedCharacter))
  {
    var s := Trim(u.nfd(raw));
    if s != [] {
      WhitelistFlagsEveryUnit(s, |s|);
      var ws := WhitelistIssues(AsWritten, s, |s|);
      assert Check(AsWritten, u, s)[..|s|] == ws;
    }
  }

  // ---- empty input ----

  /**
   * Input whose decomposition is all white space (the empty string among
   * them) is exactly the input that fails with the single "Empty input" issue
   * and an empty cleaned string, whatever the whitelist.
   */
  lemma EmptyInputIff(w: Whitelist, u: Unicode, raw: Str)
    ensures ValidateWith(w, u, raw) == Validation(false, [Issue(0, None, EmptyInput)], []) <==>
            AllSpaces(u.nfd(raw))
  {
    TrimEmptyIff(u.nfd(raw));
  }

  // ---- where issues point ----

  /**
   * What the scan of one position reports: issues at that position carrying
   * its unit, and among them the issue of check `r` exactly when `r` is one
   * of the checks and fires there.
   */
  lemma {:induction false} FiredIff(u: Unicode, s: Str, i: nat, checks: seq<Rule>, x: Issue)
    requires i < |s|
    ensures x in Fired(u, s, i, checks) <==>
      x.index == i && x.ch == Some(s[i]) && x.rule in checks && ContextFires(u, s, i, x.rule)
  {
    if checks != [] {
      FiredIff(u, s, i, checks[1..], x);
      assert checks == [checks[0]] + checks[1..];
    }
  }

  lemma {:induction false} WhitelistIssuesPlaced(w: Whitelist, s: Str, n: nat)
    requires n <= |s|
    ensures forall x :: x in WhitelistIssues(w, s, n) ==>
      x.index < n && x.ch == Some(s[x.index]) && x.rule == UnsupportedCharacter
  {
    if n > 0 { WhitelistIssuesPlaced(w, s, n - 1); }
  }

  /** An issue is in the context scan exactly when the scan of its own position produced it. */
  lemma {:induction false} InContextIff(u: Unicode, s: Str, n: nat, x: Issue)
    requires n <= |s|
    ensures x in ContextIssues(u, s, n) <==>
      x.index < n && x.ch == Some(s[x.index]) && x.rule in ContextChecks && ContextFires(u, s, x.index, x.rule)
  {
    if n > 0 {
      var a := ContextIssues(u, s, n - 1);
      var b := IssuesAt(u, s, n - 1);
      assert ContextIssues(u, s, n) == a + b;
      assert x in a <==> (x.index < n - 1 && x.ch == Some(s[x.index]) && x.rule in ContextChecks &&
        ContextFires(u, s, x.index, x.rule)) by {
        InContextIff(u, s, n - 1, x);
      }
      assert x in b <==> (x.index == n - 1 && x.ch == Some(s[x.index]) && x.rule in ContextChecks &&
        ContextFires(u, s, x.index, x.rule)) by {
        FiredIff(u, s, n - 1, ContextChecks, x);
      }
    }
  }

  /** The start checks report at index 0 or 1, with the unit found there, and only with start rules. */
  lemma StartIssuesPlaced(u: Unicode, s: Str)
    requires s != []
    ensures forall x :: x in StartIssues(u, s) ==>
      x.index <= 1 && x.index < |s| && x.ch == Some(s[x.index]) &&
      x.rule in {CombiningStart, StressOnly, StressBeforePunct, ConsecutiveStress, LengthStart}
  {
  }

  /**
   * Every issue of a non-empty cleaned string points into it and carries the
   * unit found there.
   */
  lemma CheckPlaced(w: Whitelist, u: Unicode, s: Str)
    requires s != []
    ensures forall x :: x in Check(w, u, s) ==> x.index < |s| && x.ch == Some(s[x.index])
  {
    WhitelistIssuesPlaced(w, s, |s|);
    StartIssuesPlaced(u, s);
    forall x | x in ContextIssues(u, s, |s|) ensures x.index < |s| && x.ch == Some(s[x.index]) {
      InContextIff(u, s, |s|, x);
    }
  }

  /**
   * Every issue points into the cleaned string and carries the unit found
   * there, except the one "Empty input" issue, which has index 0 and no unit.
   */
  lemma IssuesPlaced(w: Whitelist, u: Unicode, raw: Str)
    ensures var v := ValidateWith(w, u, raw);
      forall x :: x in v.issues ==>
        if v.cleaned == [] then x == Issue(0, None, EmptyInput)
        else x.index < |v.cleaned| && x.ch == Some(v.cleaned[x.index])
  {
    var s := Trim(u.nfd(raw));
    if s != [] {
      CheckPlaced(w, u, s);
    }
  }

  // ---- order of the issues ----

  /** Issue indices strictly increase along `xs`. */
  predicate Ascending(xs: seq<Issue>)
  {
    forall j, k :: 0 <= j < k < |xs| ==> xs[j].index < xs[k].index
  }

  /** Issue indices never decrease along `xs`. */
  predicate Nondecreasing(xs: seq<Issue>)
  {
    forall j, k :: 0 <= j < k < |xs| ==> xs[j].index <= xs[k].index
  }

  lemma {:induction false} WhitelistAscending(w: Whitelist, s: Str, n: nat)
    requires n <= |s|
    ensures Ascending(WhitelistIssues(w, s, n))
  {
    if n > 0 {
      WhitelistAscending(w, s, n - 1);
      WhitelistIssuesPlaced(w, s, n - 1);
      var prior := WhitelistIssues(w, s, n - 1);
      var last := if Admits(w, s[n - 1]) then [] else [Issue(n - 1, Some(s[n - 1]), UnsupportedCharacter)];
      var ws := WhitelistIssues(w, s, n);
      assert ws == prior + last;
      forall j, k | 0 <= j < k < |ws| ensures ws[j].index < ws[k].index {
        if k >= |prior| {
          assert ws[k] == last[k - |prior|] && ws[j] == prior[j];
          assert prior[j] in prior;
        } else {
          assert ws[j] == prior[j] && ws[k] == prior[k];
        }
      }
    }
  }

  lemma {:induction false} ContextNondecreasing(u: Unicode, s: Str, n: nat)
    requires n <= |s|
    ensures Nondecreasing(ContextIssues(u, s, n))
  {
    if n > 0 {
      ContextNondecreasing(u, s, n - 1);
      var prior := ContextIssues(u, s, n - 1);
      var here := IssuesAt(u, s, n - 1);
      var cs := ContextIssues(u, s, n);
      assert cs == prior + here;
      forall x | x in prior ensures x.index < n - 1 {
        InContextIff(u, s, n - 1, x);
      }
      forall x | x in here ensures x.index == n - 1 {
        FiredIff(u, s, n - 1, ContextChecks, x);
      }
      forall j, k | 0 <= j < k < |cs| ensures cs[j].index <= cs[k].index {
        if k >= |prior| {
          assert cs[k] == here[k - |prior|] && here[k - |prior|] in here;
          if j < |prior| {
            assert cs[j] == prior[j] && prior[j] in prior;
          } else {
            assert cs[j] == here[j - |prior|] && here[j - |prior|] in here;
          }
        } else {
          assert cs[j] == prior[j] && cs[k] == prior[k];
        }
      }
    }
  }

  /**
   * Issues come in pass order: the whitelist issues in strictly ascending
   * index, then the start issues (all at index 0 or 1), then the context
   * issues in non-decreasing index.
   */
  lemma IssuesInPassOrder(w: Whitelist, u: Unicode, s: Str)
    requires s != []
    ensures var ws := WhitelistIssues(w, s, |s|);
      var st := StartIssues(u, s);
      var cs := ContextIssues(u, s, |s|);
      Check(w, u, s) == ws + st + cs &&
      Ascending(ws) && (forall x :: x in st ==> x.index <= 1) && Nondecreasing(cs)
  {
    WhitelistAscending(w, s, |s|);
    StartIssuesPlaced(u, s);
    ContextNondecreasing(u, s, |s|);
  }

  /** Pass order is not index order: for "ːa" an issue at index 0 follows one at index 1. */
  lemma IssuesNotSortedByIndex(u: Unicode)
    requires u.nfd([LengthLong, 0x61]) == [LengthLong, 0x61]
    ensures var v := Validate(u, [LengthLong, 0x61]);
      |v.issues| >= 3 && v.issues[1].index == 1 && v.issues[2].index == 0
  {
    var s: Str := [LengthLong, 0x61];
    assert Trim(s) == s;
    WhitelistFlagsEveryUnit(s, 2);
    var ws := WhitelistIssues(AsWritten, s, 2);
    var st := StartIssues(u, s);
    assert |ws| == 2 && ws[1].index == 1;
    if u.isMark(LengthLong) {
      assert st == [Issue(0, Some(LengthLong), CombiningStart), Issue(0, Some(LengthLong), LengthStart)];
    } else {
      assert st == [Issue(0, Some(LengthLong), LengthStart)];
    }
    assert Check(AsWritten, u, s) == ws + st + ContextIssues(u, s, 2);
  }

  // ---- the context checks, one by one ----

  /** Only the context scan uses the rules of checks 3a, 3b and 3d. */
  lemma ContextOnlyRule(w: Whitelist, u: Unicode, s: Str, x: Issue)
    requires s != []
    requires x.rule == DiacriticDetached || x.rule == LengthDetached || x.rule == ToneContext
    ensures x in Check(w, u, s) <==>
      x.index < |s| && x.ch == Some(s[x.index]) && ContextFires(u, s, x.index, x.rule)
  {
    WhitelistIssuesPlaced(w, s, |s|);
    StartIssuesPlaced(u, s);
    InContextIff(u, s, |s|, x);
  }

  /**
   * Check 3b: a length mark at `i` is flagged exactly when it is first, or
   * follows a combining mark, or follows safe punctuation.
   */
  lemma LengthFlaggedIff(w: Whitelist, u: Unicode, s: Str, i: nat)
    requires i < |s|
    ensures Issue(i, Some(s[i]), LengthDetached) in Check(w, u, s) <==>
      IsLength(s[i]) && (i == 0 || u.isMark(s[i - 1]) || IsSafePunct(s[i - 1]))
  {
    ContextOnlyRule(w, u, s, Issue(i, Some(s[i]), LengthDetached));
  }

  /**
   * Check 3d: a tone letter at `i` is flagged exactly when it is first, or the
   * unit before it is neither a vowel of `VOWELS` nor a combining mark.
   */
  lemma ToneFlaggedIff(w: Whitelist, u: Unicode, s: Str, i: nat)
    requires i < |s|
    ensures Issue(i, Some(s[i]), ToneContext) in Check(w, u, s) <==>
      IsToneLetter(s[i]) && (i == 0 || (!IsVowel(s[i - 1]) && !u.isMark(s[i - 1])))
  {
    ContextOnlyRule(w, u, s, Issue(i, Some(s[i]), ToneContext));
  }

  /**
   * Check 3a: a combining mark at `i` is flagged exactly when it is first or
   * follows safe punctuation.
   */
  lemma DiacriticFlaggedIff(w: Whitelist, u: Unicode, s: Str, i: nat)
    requires i < |s|
    ensures Issue(i, Some(s[i]), DiacriticDetached) in Check(w, u, s) <==>
      u.isMark(s[i]) && (i == 0 || IsSafePunct(s[i - 1]))
  {
    ContextOnlyRule(w, u, s, Issue(i, Some(s[i]), DiacriticDetached));
  }

  // ---- the start checks ----

  predicate HasRule(issues: seq<Issue>, r: Rule)
  {
    exists x :: x in issues && x.rule == r
  }

  /** The start-only rules appear in the result exactly when the start checks produced them. */
  lemma StartOnlyRule(w: Whitelist, u: Unicode, s: Str, r: Rule)
    requires s != []
    requires r == StressOnly || r == StressBeforePunct || r == CombiningStart || r == LengthStart
    ensures HasRule(Check(w, u, s), r) <==> HasRule(StartIssues(u, s), r)
  {
    var ws := WhitelistIssues(w, s, |s|);
    var st := StartIssues(u, s);
    var cs := ContextIssues(u, s, |s|);
    WhitelistIssuesPlaced(w, s, |s|);
    if HasRule(Check(w, u, s), r) {
      var x: Issue :| x in ws + st + cs && x.rule == r;
      if x in cs {
        InContextIff(u, s, |s|, x);
      }
    }
    if HasRule(st, r) {
      var x: Issue :| x in st && x.rule == r;
      assert x in ws + st + cs;
    }
  }

  /**
   * A leading stress mark meets one of three outcomes, decided by the second
   * unit: none gives "only/last", and safe punctuation gives "followed by
   * space or punctuation"; neither message arises in any other way.
   */
  lemma LeadingStress(w: Whitelist, u: Unicode, s: Str)
    requires s != []
    ensures HasRule(Check(w, u, s), StressOnly) <==> IsStress(s[0]) && |s| == 1
    ensures HasRule(Check(w, u, s), StressBeforePunct) <==> IsStress(s[0]) && |s| >= 2 && IsSafePunct(s[1])
    ensures IsStress(s[0]) && |s| == 1 ==> Issue(0, Some(s[0]), StressOnly) in Check(w, u, s)
    ensures IsStress(s[0]) && |s| >= 2 && IsSafePunct(s[1]) ==>
      Issue(0, Some(s[0]), StressBeforePunct) in Check(w, u, s)
  {
    var st := StartIssues(u, s);
    StartOnlyRule(w, u, s, StressOnly);
    StartOnlyRule(w, u, s, StressBeforePunct);
    if HasRule(st, StressOnly) {
      var x: Issue :| x in st && x.rule == StressOnly;
    }
    if HasRule(st, StressBeforePunct) {
      var x: Issue :| x in st && x.rule == StressBeforePunct;
    }
    if IsStress(s[0]) && |s| == 1 {
      assert Issue(0, Some(s[0]), StressOnly) in st;
    }
    if IsStress(s[0]) && |s| >= 2 && IsSafePunct(s[1]) {
      assert Issue(0, Some(s[0]), StressBeforePunct) in st;
    }
  }

  /** Checks listed once each report an issue at most once. */
  lemma {:induction false} FiredOnce(u: Unicode, s: Str, i: nat, checks: seq<Rule>, x: Issue)
    requires i < |s|
    requires DistinctChecks(checks)
    ensures multiset(Fired(u, s, i, checks))[x] <= 1
  {
    if checks != [] {
      var tail := checks[1..];
      assert forall j, k :: 0 <= j < k < |tail| ==> tail[j] == checks[j + 1] && tail[k] == checks[k + 1];
      FiredOnce(u, s, i, tail, x);
      FiredIff(u, s, i, tail, x);
      var head := if ContextFires(u, s, i, checks[0]) then [Issue(i, Some(s[i]), checks[0])] else [];
      assert Fired(u, s, i, checks) == head + Fired(u, s, i, tail);
      assert multiset(head + Fired(u, s, i, tail)) == multiset(head) + multiset(Fired(u, s, i, tail));
      if x in head {
        assert x.rule == checks[0] && x.rule !in tail;
      }
    }
  }

  /** No context check is listed twice. */
  predicate DistinctChecks(checks: seq<Rule>)
  {
    forall j, k :: 0 <= j < k < |checks| ==> checks[j] != checks[k]
  }

  lemma ContextChecksDistinct()
    ensures DistinctChecks(ContextChecks)
  {
    var c := ContextChecks;
    assert c[0] == DiacriticDetached && c[1] == LengthDetached && c[2] == ConsecutiveStress && c[3] == ToneContext;
  }

  /** Joining two sequences that each hold `x` at most once, and not both, holds it at most once. */
  lemma ConcatOnce(a: seq<Issue>, b: seq<Issue>, x: Issue)
    requires multiset(a)[x] <= 1 && multiset(b)[x] <= 1 && !(x in a && x in b)
    ensures multiset(a + b)[x] <= 1
  {
    assert multiset(a + b) == multiset(a) + multiset(b);
  }

  lemma IssuesAtIndex(u: Unicode, s: Str, i: nat, x: Issue)
    requires i < |s| && x in IssuesAt(u, s, i)
    ensures x.index == i
  {
    FiredIff(u, s, i, ContextChecks, x);
  }

  /** The context scan never reports the same issue twice. */
  lemma ContextOnce(u: Unicode, s: Str, n: nat, x: Issue)
    requires n <= |s|
    ensures multiset(ContextIssues(u, s, n))[x] <= 1
  {
    var ps := Positions(u, s);
    ContextChecksDistinct();
    forall k | 0 <= k < |ps| ensures multiset(ps[k])[x] <= 1 && (x in ps[k] ==> x.index == k) {
      FiredOnce(u, s, k, ContextChecks, x);
      if x in ps[k] {
        IssuesAtIndex(u, s, k, x);
      }
    }
    JoinOnce(ps, n, x);
  }

  /** Parts that hold `x` at most once each, and only the part at its own index, join into a sequence holding it at most once. */
  lemma {:induction false} JoinOnce(ps: seq<seq<Issue>>, n: nat, x: Issue)
    requires n <= |ps|
    requires forall k :: 0 <= k < |ps| ==> multiset(ps[k])[x] <= 1
    requires forall k :: 0 <= k < |ps| && x in ps[k] ==> x.index == k
    ensures multiset(Join(ps, n))[x] <= 1
  {
    if n > 0 {
      var a := Join(ps, n - 1);
      JoinOnce(ps, n - 1, x);
      if x in ps[n - 1] {
        JoinIn(ps, n - 1, x);
      }
      ConcatOnce(a, ps[n - 1], x);
      assert Join(ps, n) == a + ps[n - 1];
    }
  }

  /**
   * Two leading stress marks: the start check reports the second one as
   * "Consecutive" at index 1, and the context scan reports the same issue a
   * second time, so it occurs exactly twice.
   */
  lemma LeadingDoubleStressTwice(w: Whitelist, u: Unicode, s: Str)
    requires |s| >= 2 && IsStress(s[0]) && IsStress(s[1])
    ensures multiset(Check(w, u, s))[Issue(1, Some(s[1]), ConsecutiveStress)] == 2
  {
    var x := Issue(1, Some(s[1]), ConsecutiveStress);
    var ws := WhitelistIssues(w, s, |s|);
    var cs := ContextIssues(u, s, |s|);
    if x in ws {
      WhitelistIssuesPlaced(w, s, |s|);
    }
    StartConsecutiveOnce(u, s);
    ContextOnce(u, s, |s|, x);
    InContextIff(u, s, |s|, x);
    assert x in cs;
    CountOfThree(ws, StartIssues(u, s), cs, x);
  }

  /** A leading pair of stress marks makes the start check report the second one, once. */
  lemma StartConsecutiveOnce(u: Unicode, s: Str)
    requires |s| >= 2 && IsStress(s[0]) && IsStress(s[1])
    ensures multiset(StartIssues(u, s))[Issue(1, Some(s[1]), ConsecutiveStress)] == 1
  {
    assert !IsSafePunct(s[1]);
  }

  lemma CountOfThree(a: seq<Issue>, b: seq<Issue>, c: seq<Issue>, x: Issue)
    requires x !in a && multiset(b)[x] == 1 && multiset(c)[x] <= 1 && x in c
    ensures multiset(a + b + c)[x] == 2
  {
    assert multiset(a + b + c) == multiset(a) + multiset(b) + multiset(c);
  }

  /**
   * A leading combining mark is reported twice (by the start check and by
   * check 3a), and so is a leading length mark (by the start check and by
   * check 3b).
   */
  lemma LeadingDefectsReportedTwice(w: Whitelist, u: Unicode, s: Str)
    requires s != []
    ensures u.isMark(s[0]) <==>
      Issue(0, Some(s[0]), CombiningStart) in Check(w, u, s) &&
      Issue(0, Some(s[0]), DiacriticDetached) in Check(w, u, s)
    ensures IsLength(s[0]) <==>
      Issue(0, Some(s[0]), LengthStart) in Check(w, u, s) &&
      Issue(0, Some(s[0]), LengthDetached) in Check(w, u, s)
  {
    DiacriticFlaggedIff(w, u, s, 0);
    LengthFlaggedIff(w, u, s, 0);
    var ws := WhitelistIssues(w, s, |s|);
    var st := StartIssues(u, s);
    var cs := ContextIssues(u, s, |s|);
    if u.isMark(s[0]) {
      assert Issue(0, Some(s[0]), CombiningStart) in st;
      assert Issue(0, Some(s[0]), CombiningStart) in ws + st + cs;
    }
    if IsLength(s[0]) {
      assert Issue(0, Some(s[0]), LengthStart) in st;
      assert Issue(0, Some(s[0]), LengthStart) in ws + st + cs;
    }
  }

  // ---- scenarios under the intended whitelist ----

  /** The first pass is silent exactly when the whitelist admits every unit it scans. */
  lemma {:induction false} WhitelistSilentIff(w: Whitelist, s: Str, n: nat)
    requires n <= |s|
    ensures WhitelistIssues(w, s, n) == [] <==> forall i :: 0 <= i < n ==> Admits(w, s[i])
  {
    if n > 0 {
      WhitelistSilentIff(w, s, n - 1);
    }
  }

  /** The context scan is silent exactly when no context check fires at any scanned position. */
  lemma ContextSilentIff(u: Unicode, s: Str, n: nat)
    requires n <= |s|
    ensures ContextIssues(u, s, n) == [] <==>
      forall i, r :: 0 <= i < n && r in ContextChecks ==> !ContextFires(u, s, i, r)
  {
    if ContextIssues(u, s, n) != [] {
      var x := ContextIssues(u, s, n)[0];
      InContextIff(u, s, n, x);
    }
    forall i, r | 0 <= i < n && r in ContextChecks && ContextFires(u, s, i, r)
      ensures ContextIssues(u, s, n) != []
    {
      InContextIff(u, s, n, Issue(i, Some(s[i]), r));
    }
  }

  /** "ˈkæt": with the intended whitelist, a stress mark before a letter is legal and nothing is reported. */
  lemma StressedWordValidUnderIntended(u: Unicode, s: Str)
    requires s == [StressPrimary, 0x6B, 0xE6, 0x74]
    requires u.nfd(s) == s
    requires !u.isMark(StressPrimary) && !u.isMark(0x6B) && !u.isMark(0xE6) && !u.isMark(0x74)
    ensures ValidateWith(Intended, u, s) == Validation(true, [], s)
  {
    assert Trim(s) == s;
    assert WhitelistIssues(Intended, s, 4) == [] by {
      WhitelistSilentIff(Intended, s, 4);
    }
    assert StartIssues(u, s) == [];
    assert ContextIssues(u, s, 4) == [] by {
      forall i | 0 <= i < 4
        ensures !u.isMark(s[i]) && !IsLength(s[i]) && !IsToneLetter(s[i]) && (i > 0 ==> !IsStress(s[i]))
      {
      }
      ContextSilentIff(u, s, 4);
    }
    assert Check(Intended, u, s) == [];
  }

  /** The glottal stop ʔ passes the intended whitelist (it lies in IPA Extensions). */
  lemma GlottalStopValidUnderIntended(u: Unicode)
    requires u.nfd([0x294]) == [0x294] && !u.isMark(0x294)
    ensures ValidateWith(Intended, u, [0x294]) == Validation(true, [], [0x294])
  {
    var s: Str := [0x294];
    assert Trim(s) == s;
    IssuesAtUnfold(u, s, 0);
    ContextIssuesStep(u, s, 1);
  }

  /** "ˈˈtest": the second stress mark is reported as consecutive at index 1, twice, whatever the whitelist. */
  lemma DoubleStressReported(w: Whitelist, u: Unicode)
    requires u.nfd([StressPrimary, StressPrimary, 0x74, 0x65, 0x73, 0x74]) ==
             [StressPrimary, StressPrimary, 0x74, 0x65, 0x73, 0x74]
    ensures var v := ValidateWith(w, u, [StressPrimary, StressPrimary, 0x74, 0x65, 0x73, 0x74]);
      !v.ok && multiset(v.issues)[Issue(1, Some(StressPrimary), ConsecutiveStress)] == 2
  {
    var raw: Str := [StressPrimary, StressPrimary, 0x74, 0x65, 0x73, 0x74];
    assert Trim(raw) == raw;
    LeadingDoubleStressTwice(w, u, raw);
  }
}
