/**
 * The strict package-name sanitizer: trim, lower-case, map every character
 * outside `[a-z0-9-]` to `-`, strip the outer dashes, then refuse an empty
 * result, one longer than 214 characters, or a reserved identifier.
 */
module PackageName {
  import opened Wrappers
  import opened Text

  /** The longest package name accepted. */
  const MaxPackageNameLength: nat := 214

  /** Why a name cannot become a package name. */
  datatype SanitizeError =
    | EmptyAfterSanitization
    | TooLong
    | ReservedIdentifier(name: string)
  {
    /** The text of the thrown error. */
    function Message(): string {
      match this
      case EmptyAfterSanitization => "Package name cannot be empty"
      case TooLong => "Package name too long"
      case ReservedIdentifier(_) => "Reserved package name"
    }
  }

  /** Over `[a-z0-9-]`, with no `-` at either end: the form every package name takes. */
  predicate IsCanonical(s: string) {
    All(s, IsPackageChar) && (s == [] || (s[0] != '-' && s[|s| - 1] != '-'))
  }

  /** The transformation before the checks. */
  function Normalize(name: string): (r: string)
    ensures IsCanonical(r)
    ensures |r| <= |name|
  {
    var mapped := MapToPackageAlphabet(LowerAscii(Trim(name)));
    TrimByKeepsAll(mapped, IsDash, IsPackageChar);
    StripDashes(mapped)
  }

  /**
   * `sanitizePackageName`: the normalized name, or the first check it
   * fails. `reserved` stands for the runtime's list of built-in module names.
   */
  function SanitizePackageName(name: string, reserved: set<string>): Result<string, SanitizeError> {
    var r := Normalize(name);
    if r == [] then Failure(EmptyAfterSanitization)
    else if |r| > MaxPackageNameLength then Failure(TooLong)
    else if r in reserved then Failure(ReservedIdentifier(r))
    else Success(r)
  }

  /** A successful result is non-empty, canonical, short enough and not reserved. */
  lemma SanitizeSuccess(name: string, reserved: set<string>)
    requires SanitizePackageName(name, reserved).Success?
    ensures var r := SanitizePackageName(name, reserved).value;
      r != [] && IsCanonical(r) && |r| <= MaxPackageNameLength && r !in reserved
  {
  }

  /** A canonical name is its own normal form. */
  lemma NormalizeKeepsCanonical(s: string)
    requires IsCanonical(s)
    ensures Normalize(s) == s
  {
    if s != [] {
      assert !IsWhitespace(s[0]) && !IsWhitespace(s[|s| - 1]) by {
        assert IsPackageChar(s[0]) && IsPackageChar(s[|s| - 1]);
      }
    }
    TrimByKeeps(s, IsWhitespace);
    assert LowerAscii(s) == s by {
      forall i | 0 <= i < |s| ensures LowerAscii(s)[i] == s[i] {
        assert IsPackageChar(s[i]);
      }
    }
    assert MapToPackageAlphabet(s) == s by {
      forall i | 0 <= i < |s| ensures MapToPackageAlphabet(s)[i] == s[i] {
        assert IsPackageChar(s[i]);
      }
    }
    TrimByKeeps(s, IsDash);
  }

  /** Normalizing twice is normalizing once. */
  lemma NormalizeIdempotent(name: string)
    ensures Normalize(Normalize(name)) == Normalize(name)
  {
    NormalizeKeepsCanonical(Normalize(name));
  }

  /** A successful result sanitizes to itself. */
  lemma SanitizeFixpoint(name: string, reserved: set<string>)
    requires SanitizePackageName(name, reserved).Success?
    ensures var r := SanitizePackageName(name, reserved).value;
      SanitizePackageName(r, reserved) == Success(r)
  {
    NormalizeIdempotent(name);
  }

  /** A string is a successful result exactly when it sanitizes to itself: the fixpoints are the valid package names. */
  lemma SanitizeFixpoints(s: string, reserved: set<string>)
    ensures SanitizePackageName(s, reserved) == Success(s) <==>
      s != [] && IsCanonical(s) && |s| <= MaxPackageNameLength && s !in reserved
  {
    if IsCanonical(s) {
      NormalizeKeepsCanonical(s);
    }
  }

  predicate NotAlphanumeric(c: char) { !IsAlphanumeric(c) }

  /** The name sanitizes to empty exactly when it holds no ASCII letter or digit. */
  lemma EmptyIffNoAlphanumeric(name: string)
    ensures Normalize(name) == [] <==> All(name, NotAlphanumeric)
  {
    var t := Trim(name);
    var mapped := MapToPackageAlphabet(LowerAscii(t));
    assert Normalize(name) == [] <==> All(mapped, IsDash);
    assert All(mapped, IsDash) <==> All(t, NotAlphanumeric) by {
      forall j | 0 <= j < |t| ensures IsDash(mapped[j]) <==> NotAlphanumeric(t[j]) {
        assert mapped[j] == PackageChar(LowerChar(t[j]));
      }
    }
    if All(t, NotAlphanumeric) {
      NoAlphanumericAroundTrim(name);
    } else if All(name, NotAlphanumeric) {
      TrimByKeepsAll(name, IsWhitespace, NotAlphanumeric);
    }
  }

  /** What trimming drops is whitespace, so a letter or digit can only sit in the trimmed part. */
  lemma NoAlphanumericAroundTrim(name: string)
    requires All(Trim(name), NotAlphanumeric)
    ensures All(name, NotAlphanumeric)
  {
    var t := Trim(name);
    TrimByInfix(name, IsWhitespace);
    var k :| InfixAt(name, t, k) && All(name[..k], IsWhitespace) && All(name[k + |t|..], IsWhitespace);
    forall i | 0 <= i < |name| ensures NotAlphanumeric(name[i]) {
      if i < k {
        assert IsWhitespace(name[..k][i]);
      } else if i >= k + |t| {
        assert IsWhitespace(name[k + |t|..][i - k - |t|]);
      } else {
        assert name[i] == name[k..k + |t|][i - k] == t[i - k];
      }
    }
  }

  /** The sanitizer reports an empty name exactly when the input holds no ASCII letter or digit. */
  lemma EmptyErrorIff(name: string, reserved: set<string>)
    ensures SanitizePackageName(name, reserved) == Failure(EmptyAfterSanitization) <==> All(name, NotAlphanumeric)
  {
    EmptyIffNoAlphanumeric(name);
  }

  /** The sanitizer never produces a name with `_` or `.`, so never `node_modules` or `favicon.ico`. */
  lemma NoUnderscoreOrPeriod(name: string, reserved: set<string>)
    requires SanitizePackageName(name, reserved).Success?
    ensures var r := SanitizePackageName(name, reserved).value;
      '_' !in r && '.' !in r && r != "node_modules" && r != "favicon.ico"
  {
    var r := SanitizePackageName(name, reserved).value;
    assert !IsPackageChar('_') && !IsPackageChar('.');
    assert "node_modules"[4] == '_';
  }

  /** Only the canonical entries of the reserved set can ever refuse a name. */
  lemma OnlyCanonicalReservedNamesMatter(name: string, r1: set<string>, r2: set<string>)
    requires forall s :: IsCanonical(s) ==> (s in r1 <==> s in r2)
    ensures SanitizePackageName(name, r1) == SanitizePackageName(name, r2)
  {
  }

  /** Letters and digits alone are kept as they are, so more than 214 of them are too long. */
  lemma LongAlphanumericTooLong(name: string, reserved: set<string>)
    requires All(name, IsLowerAlphanumeric) && |name| > MaxPackageNameLength
    ensures SanitizePackageName(name, reserved) == Failure(TooLong)
  {
    assert IsCanonical(name) by {
      forall i | 0 <= i < |name| ensures IsPackageChar(name[i]) {
        assert IsLowerAlphanumeric(name[i]);
      }
      assert IsLowerAlphanumeric(name[0]) && IsLowerAlphanumeric(name[|name| - 1]);
    }
    NormalizeKeepsCanonical(name);
  }

  predicate IsLowerAlphanumeric(c: char) { 'a' <= c <= 'z' || '0' <= c <= '9' }

  /**
   * Normalize step by step: `name` is `s` padded with whitespace, `s`
   * maps character by character to `m`, and `m` is `core` padded with dashes.
   */
  lemma NormalizeSteps(name: string, w1: string, s: string, w2: string, m: string, d1: string, core: string, d2: string)
    requires name == w1 + s + w2 && All(w1, IsWhitespace) && All(w2, IsWhitespace)
    requires s == [] || (!IsWhitespace(s[0]) && !IsWhitespace(s[|s| - 1]))
    requires |m| == |s| && forall i :: 0 <= i < |s| ==> PackageChar(LowerChar(s[i])) == m[i]
    requires m == d1 + core + d2 && All(d1, IsDash) && All(d2, IsDash)
    requires core == [] || (core[0] != '-' && core[|core| - 1] != '-')
    ensures Normalize(name) == core
  {
    TrimByPadding(w1, s, w2, IsWhitespace);
    TrimByKeeps(s, IsWhitespace);
    assert MapToPackageAlphabet(LowerAscii(s)) == m;
    TrimByPadding(d1, core, d2, IsDash);
    TrimByKeeps(core, IsDash);
  }

  /** A name that normalizes to something non-empty, short enough and not reserved is accepted as that. */
  lemma Accepted(name: string, reserved: set<string>, expected: string)
    requires Normalize(name) == expected
    requires expected != [] && |expected| <= MaxPackageNameLength && expected !in reserved
    ensures SanitizePackageName(name, reserved) == Success(expected)
  {
  }

  /** Valid names, interior dash runs included, are kept; upper case is lowered. */
  lemma KeptAndLoweredExamples(input: string, expected: string, reserved: set<string>)
    requires (input, expected) in {("my-project", "my-project"), ("MyProject", "myproject"), ("a---b", "a---b")}
    requires expected !in reserved
    ensures SanitizePackageName(input, reserved) == Success(expected)
  {
    NormalizeSteps(input, [], input, [], expected, [], expected, []);
    Accepted(input, reserved, expected);
  }

  /**
   * `.`, `_` and `/` inside a name each become `-`; `node_modules` and
   * `favicon.ico` thereby come out as valid names with a dash instead.
   */
  lemma SeparatorExamples(input: string, expected: string, reserved: set<string>)
    requires (input, expected) in {
      ("my.project", "my-project"), ("my_project", "my-project"), ("my/project", "my-project"),
      ("node_modules", "node-modules"), ("favicon.ico", "favicon-ico")}
    requires expected !in reserved
    ensures SanitizePackageName(input, reserved) == Success(expected)
  {
    NormalizeSteps(input, [], input, [], expected, [], expected, []);
    Accepted(input, reserved, expected);
  }

  /** A space, a period and `@` inside become `-`, after lowering. */
  lemma SpecialCharacterExamples(input: string, expected: string, reserved: set<string>)
    requires (input, expected) in {("My Project", "my-project"), ("project.name", "project-name"), ("foo@bar", "foo-bar")}
    requires expected !in reserved
    ensures SanitizePackageName(input, reserved) == Success(expected)
  {
    NormalizeSteps(input, [], input, [], expected, [], expected, []);
    Accepted(input, reserved, expected);
  }

  /** Outer whitespace is trimmed. */
  lemma TrimmedExamples(input: string, expected: string, reserved: set<string>)
    requires (input, expected) in {("  my-project  ", "my-project"), ("   trimmed   ", "trimmed")}
    requires expected !in reserved
    ensures SanitizePackageName(input, reserved) == Success(expected)
  {
    if input == "  my-project  " {
      NormalizeSteps(input, "  ", expected, "  ", expected, [], expected, []);
    } else {
      NormalizeSteps(input, "   ", expected, "   ", expected, [], expected, []);
    }
    Accepted(input, reserved, expected);
  }

  /** Characters outside the alphabet become `-`, and the resulting outer dash is stripped. */
  lemma ScopedExample(input: string, expected: string, reserved: set<string>)
    requires (input, expected) == ("@scope/pkg", "scope-pkg")
    requires expected !in reserved
    ensures SanitizePackageName(input, reserved) == Success(expected)
  {
    NormalizeSteps(input, [], input, [], "-scope-pkg", "-", expected, []);
    Accepted(input, reserved, expected);
  }

  /** Outer dashes are stripped. */
  lemma OuterDashExamples(input: string, expected: string, reserved: set<string>)
    requires (input, expected) in {("---test---", "test"), ("-both-", "both")}
    requires expected !in reserved
    ensures SanitizePackageName(input, reserved) == Success(expected)
  {
    if input == "---test---" {
      NormalizeSteps(input, [], input, [], input, "---", expected, "---");
    } else {
      NormalizeSteps(input, [], input, [], input, "-", expected, "-");
    }
    Accepted(input, reserved, expected);
  }

  /** A dash at one end is stripped. */
  lemma OneSidedDashExamples(input: string, expected: string, reserved: set<string>)
    requires (input, expected) in {("-start", "start"), ("end-", "end")}
    requires expected !in reserved
    ensures SanitizePackageName(input, reserved) == Success(expected)
  {
    if input == "-start" {
      NormalizeSteps(input, [], input, [], input, "-", expected, []);
    } else {
      NormalizeSteps(input, [], input, [], input, [], expected, "-");
    }
    Accepted(input, reserved, expected);
  }

  /** Inputs without a letter or digit are refused as empty. */
  lemma EmptyExamples(input: string, reserved: set<string>)
    requires input in {"", "   ", "---", "???"}
    ensures SanitizePackageName(input, reserved) == Failure(EmptyAfterSanitization)
    ensures SanitizePackageName(input, reserved).error.Message() == "Package name cannot be empty"
  {
    assert All(input, NotAlphanumeric);
    EmptyIffNoAlphanumeric(input);
  }

  /** Built-in module names are refused. */
  lemma BuiltinExamples(input: string, reserved: set<string>)
    requires input in {"fs", "http", "path"} && input in reserved
    ensures SanitizePackageName(input, reserved) == Failure(ReservedIdentifier(input))
    ensures SanitizePackageName(input, reserved).error.Message() == "Reserved package name"
  {
    assert IsCanonical(input);
    NormalizeKeepsCanonical(input);
  }

  /** 215 and 10000 letters are refused as too long. */
  lemma LongExamples(reserved: set<string>)
    ensures SanitizePackageName(seq(215, _ => 'a'), reserved) == Failure(TooLong)
    ensures SanitizePackageName(seq(10000, _ => 'a'), reserved) == Failure(TooLong)
    ensures TooLong.Message() == "Package name too long"
  {
    LongAlphanumericTooLong(seq(215, _ => 'a'), reserved);
    LongAlphanumericTooLong(seq(10000, _ => 'a'), reserved);
  }
}
