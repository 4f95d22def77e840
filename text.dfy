/**
 * Strings as JavaScript sees them: sequences of UTF-16 code units, with the
 * few built-in string operations the IPA pipeline relies on (`trim`,
 * `String(n)` for a non-negative integer, and `RegExp.prototype.test` for a
 * pattern made only of literal characters).
 */
module Text {

  datatype Option<+T> = None | Some(value: T)

  /** One UTF-16 code unit; `s[i]` and `s.length` in JavaScript count these. */
  type CodeUnit = u: int | 0 <= u < 0x1_0000

  type Str = seq<CodeUnit>

  /** The code units of a string literal of this model (every one lies in the Basic Multilingual Plane). */
  function Lit(s: string): Str
  {
    seq(|s|, i requires 0 <= i < |s| => if s[i] as int < 0x1_0000 then s[i] as int else 0xFFFD)
  }

  lemma LitConcat(a: string, b: string)
    ensures Lit(a + b) == Lit(a) + Lit(b)
  {
  }

  /**
   * The two facts the pipeline takes from the Unicode Character Database,
   * which this model does not tabulate: whether the one-unit string `[c]`
   * matches `/\p{M}/u` (a combining mark), and `String.prototype.normalize("NFD")`.
   */
  datatype Unicode = Unicode(isMark: CodeUnit -> bool, nfd: Str -> Str)

  /**
   * ECMAScript WhiteSpace and LineTerminator code units: what `trim` strips
   * and what the regular-expression escape `\s` matches.
   */
  predicate IsJsSpace(c: CodeUnit)
  {
    c == 0x09 || c == 0x0A || c == 0x0B || c == 0x0C || c == 0x0D || c == 0x20 ||
    c == 0xA0 || c == 0x1680 || (0x2000 <= c <= 0x200A) || c == 0x2028 || c == 0x2029 ||
    c == 0x202F || c == 0x205F || c == 0x3000 || c == 0xFEFF
  }

  function TrimStart(s: Str): Str
  {
    if s != [] && IsJsSpace(s[0]) then TrimStart(s[1..]) else s
  }

  function TrimEnd(s: Str): Str
  {
    if s != [] && IsJsSpace(s[|s| - 1]) then TrimEnd(s[..|s| - 1]) else s
  }

  /** `String.prototype.trim`. */
  function Trim(s: Str): Str
  {
    TrimEnd(TrimStart(s))
  }

  predicate AllSpaces(s: Str)
  {
    forall i :: 0 <= i < |s| ==> IsJsSpace(s[i])
  }

  lemma {:induction false} TrimStartShape(s: Str)
    ensures var k := |s| - |TrimStart(s)|;
      0 <= k <= |s| && TrimStart(s) == s[k..] && AllSpaces(s[..k]) &&
      (TrimStart(s) != [] ==> !IsJsSpace(TrimStart(s)[0]))
  {
    if s != [] && IsJsSpace(s[0]) {
      TrimStartShape(s[1..]);
      var k := |s| - |TrimStart(s)|;
      assert s[1..][..k - 1] == s[1..k];
    }
  }

  lemma {:induction false} TrimEndShape(s: Str)
    ensures var k := |TrimEnd(s)|;
      k <= |s| && TrimEnd(s) == s[..k] && AllSpaces(s[k..]) &&
      (TrimEnd(s) != [] ==> !IsJsSpace(TrimEnd(s)[k - 1]))
  {
    if s != [] && IsJsSpace(s[|s| - 1]) {
      TrimEndShape(s[..|s| - 1]);
      var k := |TrimEnd(s)|;
      assert s[..|s| - 1][..k] == s[..k];
      assert s[k..] == s[..|s| - 1][k..] + [s[|s| - 1]];
    }
  }

  /**
   * `trim` removes a run of white space from each end and nothing else: the
   * result is a contiguous slice of the input, what was cut off is all white
   * space, and a non-empty result starts and ends with a non-space unit.
   */
  lemma TrimShape(s: Str)
    ensures exists a :: (0 <= a <= a + |Trim(s)| <= |s| && Trim(s) == s[a..a + |Trim(s)|] &&
                         AllSpaces(s[..a]) && AllSpaces(s[a + |Trim(s)|..]))
    ensures Trim(s) != [] ==> !IsJsSpace(Trim(s)[0]) && !IsJsSpace(Trim(s)[|Trim(s)| - 1])
  {
    TrimStartShape(s);
    var t := TrimStart(s);
    TrimEndShape(t);
    var a := |s| - |t|;
    var r := Trim(s);
    assert s[a..][..|r|] == s[a..a + |r|];
    assert s[a + |r|..] == t[|r|..];
  }

  /** The input trims to nothing exactly when it is all white space. */
  lemma TrimEmptyIff(s: Str)
    ensures Trim(s) == [] <==> AllSpaces(s)
  {
    TrimShape(s);
    var a :| 0 <= a <= a + |Trim(s)| <= |s| && Trim(s) == s[a..a + |Trim(s)|] &&
      AllSpaces(s[..a]) && AllSpaces(s[a + |Trim(s)|..]);
    if Trim(s) == [] {
      forall i | 0 <= i < |s| ensures IsJsSpace(s[i]) {
        if i < a { assert s[..a][i] == s[i]; } else { assert s[a..][i - a] == s[i]; }
      }
    } else {
      assert s[a] == Trim(s)[0];
    }
  }

  /** Trimming twice is trimming once. */
  lemma TrimIdempotent(s: Str)
    ensures Trim(Trim(s)) == Trim(s)
  {
    TrimShape(s);
    var r := Trim(s);
    if r != [] {
      assert !IsJsSpace(r[0]) && !IsJsSpace(r[|r| - 1]);
      assert TrimStart(r) == r;
      assert TrimEnd(r) == r;
    }
  }

  /**
   * `RegExp.prototype.test` for a pattern whose every character is a
   * literal: it holds when `pattern` occurs in `s` as a contiguous run.
   */
  predicate ContainsRun(s: Str, pattern: Str)
  {
    if |s| < |pattern| then false
    else s[..|pattern|] == pattern || ContainsRun(s[1..], pattern)
  }

  /** A literal pattern occurs in any string that contains it. */
  lemma {:induction false} ContainsRunAt(s: Str, pattern: Str, k: nat)
    requires k + |pattern| <= |s| && s[k..k + |pattern|] == pattern
    ensures ContainsRun(s, pattern)
  {
    if k > 0 {
      assert s[1..][k - 1..k - 1 + |pattern|] == s[k..k + |pattern|];
      ContainsRunAt(s[1..], pattern, k - 1);
    }
  }

  /** `pattern` occurs in `s` starting at position `k`. */
  predicate OccursAt(s: Str, pattern: Str, k: nat)
  {
    k + |pattern| <= |s| && s[k..k + |pattern|] == pattern
  }

  /** A literal pattern matches exactly the strings in which it occurs as a contiguous run. */
  lemma {:induction false} ContainsRunIff(s: Str, pattern: Str)
    ensures ContainsRun(s, pattern) <==> exists k: nat :: OccursAt(s, pattern, k)
  {
    if ContainsRun(s, pattern) {
      if s[..|pattern|] == pattern {
        assert OccursAt(s, pattern, 0);
      } else {
        ContainsRunIff(s[1..], pattern);
        var k: nat :| OccursAt(s[1..], pattern, k);
        assert s[k + 1..k + 1 + |pattern|] == s[1..][k..k + |pattern|];
        assert OccursAt(s, pattern, k + 1);
      }
    }
    if exists k: nat :: OccursAt(s, pattern, k) {
      var k: nat :| OccursAt(s, pattern, k);
      ContainsRunAt(s, pattern, k);
    }
  }

  /** A string shorter than a literal pattern never matches it. */
  lemma ContainsRunNeedsLength(s: Str, pattern: Str)
    requires |s| < |pattern|
    ensures !ContainsRun(s, pattern)
  {
  }

  predicate IsDigit(c: CodeUnit)
  {
    0x30 <= c <= 0x39
  }

  /** `String(n)` for a non-negative integer: decimal digits, most significant first. */
  function Decimal(n: nat): Str
  {
    if n < 10 then [0x30 + n] else Decimal(n / 10) + [0x30 + n % 10]
  }

  /** The value of a string of decimal digits. */
  function DigitsValue(s: Str): int
  {
    if s == [] then 0 else DigitsValue(s[..|s| - 1]) * 10 + (s[|s| - 1] as int - 0x30)
  }

  /**
   * `Decimal` is a faithful numeral: it is non-empty, all digits, has no
   * leading zero, and reads back as the number it was made from.
   */
  lemma {:induction false} DecimalRoundTrip(n: nat)
    ensures |Decimal(n)| > 0
    ensures forall i :: 0 <= i < |Decimal(n)| ==> IsDigit(Decimal(n)[i])
    ensures n > 0 ==> Decimal(n)[0] != 0x30
    ensures DigitsValue(Decimal(n)) == n
  {
    if n >= 10 {
      DecimalRoundTrip(n / 10);
      var d := Decimal(n);
      assert d[..|d| - 1] == Decimal(n / 10);
    }
  }

  /** The first `n` parts, one after the other. */
  function Join<T>(ps: seq<seq<T>>, n: nat): seq<T>
    requires n <= |ps|
  {
    if n == 0 then [] else Join(ps, n - 1) + ps[n - 1]
  }

  /** An element of the first `n` parts lies in one of them. */
  lemma {:induction false} JoinIn<T>(ps: seq<seq<T>>, n: nat, x: T)
    requires n <= |ps|
    ensures x in Join(ps, n) <==> exists k :: 0 <= k < n && x in ps[k]
  {
    if n > 0 {
      JoinIn(ps, n - 1, x);
      assert Join(ps, n) == Join(ps, n - 1) + ps[n - 1];
    }
  }
}
