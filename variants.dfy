/**
 * How the shipped rules (`index.js`) relate to the strict ones the test
 * suites describe.
 */
module Variants {
  import opened Wrappers
  import opened Text
  import LooseRules
  import ProjectName
  import PackageName

  /** The strict normal form is the shipped sanitizer's output with its outer dashes stripped. */
  lemma StrictIsLooseStripped(name: string)
    ensures PackageName.Normalize(name) == StripDashes(LooseRules.SanitizePackageName(name))
    ensures |PackageName.Normalize(name)| <= |LooseRules.SanitizePackageName(name)|
  {
  }

  /**
   * A strictly valid name is one the shipped check accepts unless it holds
   * `..`; `a..b` shows the exception is real.
   */
  lemma StrictValidIsLooseValid(name: string)
    requires ProjectName.ValidateProjectName(name) && !HasInfix(name, "..")
    ensures LooseRules.ValidateProjectName(name) == LooseRules.Accepted
  {
    ProjectName.AcceptedNameStaysInside(name);
    ProjectName.ValidIffWellFormed(name);
  }

  /** `a..b` passes every strict check but is refused by the shipped one. */
  lemma DoubleDotInsideName()
    ensures ProjectName.ValidateProjectName("a..b")
    ensures LooseRules.ValidateProjectName("a..b") == LooseRules.Rejected(LooseRules.SeparatorMessage)
  {
    var name := "a..b";
    assert All(name, ProjectName.IsNameChar);
    ProjectName.AcceptedName(name, "a", "..b");
    assert InfixAt(name, "..", 1);
  }

  /** A character that is neither a path separator nor a period. */
  predicate NotSeparatorOrPeriod(c: char) {
    c != '/' && c != '\\' && c != '.'
  }

  /** The shipped check accepts any name that does not start blank and holds no separator or period. */
  lemma LooseAcceptsPlainName(name: string)
    requires name != [] && !IsWhitespace(name[0]) && All(name, NotSeparatorOrPeriod)
    ensures LooseRules.ValidateProjectName(name) == LooseRules.Accepted
  {
    assert !All(name, IsWhitespace);
    assert !HasInfix(name, "..") by {
      forall i | 0 <= i <= |name| - 2 ensures !InfixAt(name, "..", i) {
        assert NotSeparatorOrPeriod(name[i]);
      }
    }
  }

  /** The shipped check lets through a name with a space, which the strict one refuses. */
  lemma SpaceOnlyStrictlyRefused(name: string)
    requires name == "my project"
    ensures LooseRules.ValidateProjectName(name) == LooseRules.Accepted
    ensures ProjectName.ValidationError(name) == Some(ProjectName.InvalidCharacters)
  {
    assert !ProjectName.IsNameChar(name[2]);
    ProjectName.NotBlankNorDots(name);
    ProjectName.RefusedCharacter(name, name, [], 2);
    assert !IsWhitespace(name[0]) && All(name, NotSeparatorOrPeriod);
    LooseAcceptsPlainName(name);
  }

  /** A strictly valid project name never makes the strict sanitizer report a name that is too long. */
  lemma StrictValidNeverTooLong(name: string, reserved: set<string>)
    requires ProjectName.ValidateProjectName(name)
    ensures PackageName.SanitizePackageName(name, reserved) != Failure(PackageName.TooLong)
  {
    ProjectName.ValidIffWellFormed(name);
  }

  /** A name of dashes alone is a valid project name but has no package name. */
  lemma DashesOnly(reserved: set<string>)
    ensures ProjectName.ValidateProjectName("---")
    ensures PackageName.SanitizePackageName("---", reserved) == Failure(PackageName.EmptyAfterSanitization)
  {
    var name := "---";
    assert All(name, ProjectName.IsNameChar);
    ProjectName.AcceptedName(name, name, []);
    PackageName.EmptyExamples(name, reserved);
  }

  /**
   * The shipped generator accepts a 215-letter project name and writes it,
   * unchanged, as the package name, one character over the limit the strict
   * sanitizer enforces.
   */
  lemma ShippedOverlongPackageName(reserved: set<string>)
    ensures var name := seq(215, _ => 'a');
      && LooseRules.ValidateProjectName(name) == LooseRules.Accepted
      && LooseRules.SanitizePackageName(name) == name
      && |LooseRules.SanitizePackageName(name)| > PackageName.MaxPackageNameLength
      && PackageName.SanitizePackageName(name, reserved) == Failure(PackageName.TooLong)
  {
    var name := seq(215, _ => 'a');
    assert !IsWhitespace(name[0]) && All(name, NotSeparatorOrPeriod);
    LooseAcceptsPlainName(name);
    assert All(name, IsPackageChar);
    LooseRules.SanitizeKeepsPackageAlphabet(name);
    PackageName.LongExamples(reserved);
  }
}
