/**
 * The rules of the interactive generator as it ships (`index.js`): the
 * project-name check handed to the prompt, the package-name sanitizer used
 * for `package.json`, and the install commands chosen per package manager.
 */
module LooseRules {
  import opened Text
  import opened Choice

  /** What the prompt's `validate` callback returns: `true`, or a message to show. */
  datatype Verdict = Accepted | Rejected(message: string)

  const RequiredMessage: string := "Project name is required"
  const SeparatorMessage: string := "Invalid project name. Please avoid '/', '\\' and '..'"

  /** `validateProjectName`: a blank name is refused first, then any `/`, `\` or `..`. */
  function ValidateProjectName(name: string): Verdict {
    if name == "" || Trim(name) == "" then Rejected(RequiredMessage)
    else if '/' in name || '\\' in name || HasInfix(name, "..") then Rejected(SeparatorMessage)
    else Accepted
  }

  /** The three outcomes of the check, each characterised by the name alone. */
  lemma ValidateProjectNameCases(name: string)
    ensures ValidateProjectName(name) == Rejected(RequiredMessage) <==> All(name, IsWhitespace)
    ensures ValidateProjectName(name) == Rejected(SeparatorMessage) <==>
      !All(name, IsWhitespace) && ('/' in name || '\\' in name || exists i :: InfixAt(name, "..", i))
    ensures ValidateProjectName(name) == Accepted <==>
      !All(name, IsWhitespace) && '/' !in name && '\\' !in name && forall i :: !InfixAt(name, "..", i)
  {
    assert |RequiredMessage| != |SeparatorMessage|;
    if !All(name, IsWhitespace) {
      assert name != "";
    }
  }

  /** An accepted name, once trimmed as the generator does, is one path segment other than `..`. */
  lemma AcceptedNameIsOneSegment(name: string)
    requires ValidateProjectName(name) == Accepted
    ensures Trim(name) != "" && Trim(name) != ".."
    ensures '/' !in Trim(name) && '\\' !in Trim(name)
  {
    TrimByKeepsAll(name, IsWhitespace, c => c != '/' && c != '\\');
    TrimByInfix(name, IsWhitespace);
    var k :| InfixAt(name, Trim(name), k);
    assert !InfixAt(name, "..", k);
  }

  /** `sanitizePackageName`: trim, lower-case, then replace every character outside `[a-z0-9-]` by `-`. */
  function SanitizePackageName(name: string): (r: string)
    ensures All(r, IsPackageChar)
    ensures |r| == |Trim(name)|
    ensures forall i :: 0 <= i < |r| && IsPackageChar(Trim(name)[i]) ==> r[i] == Trim(name)[i]
    ensures forall i :: 0 <= i < |r| && IsUpper(Trim(name)[i]) ==> r[i] == LowerChar(Trim(name)[i])
  {
    MapToPackageAlphabet(LowerAscii(Trim(name)))
  }

  /** A string over `[a-z0-9-]` is left as it is by the sanitizer. */
  lemma SanitizeKeepsPackageAlphabet(s: string)
    requires All(s, IsPackageChar)
    ensures SanitizePackageName(s) == s
  {
    TrimByKeeps(s, IsWhitespace);
    assert LowerAscii(s) == s;
    assert MapToPackageAlphabet(s) == s;
  }

  /** Sanitizing twice is sanitizing once. */
  lemma SanitizeIdempotent(name: string)
    ensures SanitizePackageName(SanitizePackageName(name)) == SanitizePackageName(name)
  {
    SanitizeKeepsPackageAlphabet(SanitizePackageName(name));
  }

  /** The install sub-command: `add` for pnpm and bun, `install` otherwise. */
  function InstallCommand(pm: string): string {
    if pm == "pnpm" || pm == "bun" then "add" else "install"
  }

  /** The flag that marks development dependencies: `--save-dev` for npm, `-D` otherwise. */
  function DevFlag(pm: string): string {
    if pm == "npm" then "--save-dev" else "-D"
  }

  /** The command the closing message suggests for starting the dev server. */
  function RunHint(pm: string): string {
    if pm == "npm" then "npm run dev" else pm + " dev"
  }

  /** What each offered package manager is told to run. */
  lemma CommandsPerManager(pm: PackageManager)
    ensures InstallCommand(pm.Name()) == (if pm == Npm then "install" else "add")
    ensures DevFlag(pm.Name()) == (if pm == Npm then "--save-dev" else "-D")
    ensures RunHint(pm.Name()) == pm.Name() + (if pm == Npm then " run dev" else " dev")
  {
  }

  /**
   * The install command and the dev flag are chosen by different tests
   * (`pnpm` or `bun`, versus `npm`); on the offered managers they agree on
   * which one gets npm's spelling.
   */
  lemma NpmSpellingsAgree(pm: PackageManager)
    ensures InstallCommand(pm.Name()) == "install" <==> DevFlag(pm.Name()) == "--save-dev"
    ensures InstallCommand(pm.Name()) == "install" <==> RunHint(pm.Name()) == "npm run dev"
  {
  }
}
