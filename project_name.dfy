/**
 * The strict project-name validator: six checks in a fixed order, the first
 * failing one deciding the message (`getProjectNameValidationError`), and
 * its boolean form (`validateProjectName`).
 */
module ProjectName {
  import opened Wrappers
  import opened Text

  /** The longest accepted name; a longer one fails the length check. */
  const MaxNameLength: nat := 214

  /** Why a name is refused, one kind per check. */
  datatype NameError =
    | EmptyName
    | TooLong
    | DotName
    | ReservedName(name: string)
    | TrailingSpaceOrPeriod
    | InvalidCharacters
  {
    /** The message shown for this error; the reserved-name message quotes the name. */
    function Message(): string {
      match this
      case EmptyName => "Project name cannot be empty."
      case TooLong => "Project name must be less than 214 characters."
      case DotName => "Project name cannot be \".\" or \"..\"."
      case ReservedName(n) => "Project name \"" + n + "\" is a reserved Windows filename."
      case TrailingSpaceOrPeriod => "Project name cannot end with a space or a period."
      case InvalidCharacters => "Project name can only contain letters, numbers, hyphens, underscores, and periods."
    }

    /** The position, from 1, of the check that reports this error. */
    function Rank(): nat {
      match this
      case EmptyName => 1
      case TooLong => 2
      case DotName => 3
      case ReservedName(_) => 4
      case TrailingSpaceOrPeriod => 5
      case InvalidCharacters => 6
    }
  }

  /** The name alphabet `[A-Za-z0-9_.-]`. */
  predicate IsNameChar(c: char) {
    'A' <= c <= 'Z' || 'a' <= c <= 'z' || '0' <= c <= '9' || c == '_' || c == '.' || c == '-'
  }

  /** The part of a name before its first period. */
  function Stem(name: string): string {
    if name == [] || name[0] == '.' then [] else [name[0]] + Stem(name[1..])
  }

  /** The stem is the longest prefix without a period. */
  lemma {:induction false} StemShape(name: string)
    ensures var r := Stem(name);
      && |r| <= |name| && r == name[..|r|]
      && '.' !in r
      && (|r| < |name| ==> name[|r|] == '.')
  {
    if name != [] && name[0] != '.' {
      StemShape(name[1..]);
    }
  }

  /**
   * The device names Windows reserves, in lower case, tested letter by
   * letter: `con`, `prn`, `aux`, `nul`, `com1` to `com9` and `lpt1` to `lpt9`.
   */
  predicate IsDeviceName(s: string) {
    || (|s| == 3 && (s[0], s[1], s[2]) in {('c', 'o', 'n'), ('p', 'r', 'n'), ('a', 'u', 'x'), ('n', 'u', 'l')})
    || (|s| == 4 && (s[0], s[1], s[2]) in {('c', 'o', 'm'), ('l', 'p', 't')} && '1' <= s[3] <= '9')
  }

  /** A device name in any letter case, alone or followed by a `.`-extension. */
  predicate IsReservedDeviceName(name: string) { IsDeviceName(LowerAscii(Stem(name))) }

  predicate EndsWithSpaceOrPeriod(name: string) {
    |name| > 0 && (name[|name| - 1] == ' ' || name[|name| - 1] == '.')
  }

  /** Whether check number `k` (1 to 6, in the order they run) fails on `name`. */
  predicate Fails(k: nat, name: string) {
    if k == 1 then Trim(name) == ""
    else if k == 2 then |name| > MaxNameLength
    else if k == 3 then name == "." || name == ".."
    else if k == 4 then IsReservedDeviceName(name)
    else if k == 5 then EndsWithSpaceOrPeriod(name)
    else if k == 6 then !All(name, IsNameChar)
    else false
  }

  /**
   * The first failing check, or None for an acceptable name. Only the empty
   * check looks at the trimmed name; the others look at the name as given.
   */
  function ValidationError(name: string): Option<NameError> {
    if Trim(name) == "" then Some(EmptyName)
    else if |name| > MaxNameLength then Some(TooLong)
    else if name == "." || name == ".." then Some(DotName)
    else if IsReservedDeviceName(name) then Some(ReservedName(name))
    else if EndsWithSpaceOrPeriod(name) then Some(TrailingSpaceOrPeriod)
    else if !All(name, IsNameChar) then Some(InvalidCharacters)
    else None
  }

  /** `getProjectNameValidationError`: the message of the first failing check, or `null`. */
  function GetProjectNameValidationError(name: string): Option<string> {
    match ValidationError(name)
    case None => None
    case Some(e) => Some(e.Message())
  }

  /** `validateProjectName`, the boolean form. */
  predicate ValidateProjectName(name: string) {
    GetProjectNameValidationError(name) == None
  }

  /** The reported error is the first failing check: it fails, and every earlier one passes. */
  lemma FirstFailingCheckWins(name: string)
    ensures ValidationError(name).Some? ==>
      var e := ValidationError(name).value;
      Fails(e.Rank(), name) && forall k :: 1 <= k < e.Rank() ==> !Fails(k, name)
    ensures ValidationError(name).None? <==> forall k :: !Fails(k, name)
  {
    if ValidationError(name).None? {
      forall k ensures !Fails(k, name) {
        if k == 1 { assert Trim(name) != ""; }
      }
    } else {
      assert Fails(ValidationError(name).value.Rank(), name);
    }
  }

  /** The declarative reading of an acceptable name. */
  predicate WellFormed(name: string) {
    && 0 < |name| <= MaxNameLength
    && All(name, IsNameChar)
    && name != "." && name != ".."
    && !IsReservedDeviceName(name)
    && name[|name| - 1] != '.'
  }

  /** A name is accepted exactly when it is well formed. */
  lemma ValidIffWellFormed(name: string)
    ensures ValidateProjectName(name) <==> WellFormed(name)
  {
    if WellFormed(name) {
      assert !IsWhitespace(name[0]) && !IsWhitespace(name[|name| - 1]) by {
        assert IsNameChar(name[0]) && IsNameChar(name[|name| - 1]);
      }
      TrimByKeeps(name, IsWhitespace);
    }
    if ValidateProjectName(name) {
      assert name != "" by { assert Trim(name) != ""; }
    }
  }

  /**
   * An accepted name is a single path segment that stays inside the working
   * directory: no separator, not `.` or `..`, and no surrounding whitespace.
   */
  lemma AcceptedNameStaysInside(name: string)
    requires ValidateProjectName(name)
    ensures '/' !in name && '\\' !in name
    ensures name != "." && name != ".."
    ensures Trim(name) == name
  {
    ValidIffWellFormed(name);
    assert !IsNameChar('/') && !IsNameChar('\\');
    assert !IsWhitespace(name[0]) && !IsWhitespace(name[|name| - 1]) by {
      assert IsNameChar(name[0]) && IsNameChar(name[|name| - 1]);
    }
    TrimByKeeps(name, IsWhitespace);
  }

  /** A device name with any extension, in any letter case, is refused with the reserved-name message (once it is short enough). */
  lemma DeviceNamesRefused(stem: string, ext: string)
    requires IsDeviceName(LowerAscii(stem))
    ensures ValidationError(stem) == Some(ReservedName(stem))
    ensures |stem + "." + ext| <= MaxNameLength ==> ValidationError(stem + "." + ext) == Some(ReservedName(stem + "." + ext))
  {
    DeviceNameShape(LowerAscii(stem));
    assert '.' !in stem by { assert forall i | 0 <= i < |stem| :: LowerAscii(stem)[i] == LowerChar(stem[i]); }
    var name := stem + "." + ext;
    assert name == stem + ("." + ext);
    StemOfPrefix(stem, "." + ext);
    StemOfPrefix(stem, []);
    assert stem + [] == stem;
    assert LowerChar(stem[0]) == LowerAscii(stem)[0];
    NotBlankNorDots(stem);
    NotBlankNorDots(name);
  }

  /** A name that starts with a character other than whitespace or a period is not blank. */
  lemma NotBlankNorDots(name: string)
    requires name != [] && !IsWhitespace(name[0]) && name[0] != '.'
    ensures Trim(name) != "" && name != "." && name != ".."
  {
    assert !All(name, IsWhitespace);
  }

  /** Every device name starts with a lower-case letter and holds no period. */
  lemma DeviceNameShape(d: string)
    requires IsDeviceName(d)
    ensures d != [] && 'a' <= d[0] <= 'z' && '.' !in d
  {
  }

  /** The stem of `stem + rest` is `stem`, when `stem` has no period and `rest` is empty or starts with one. */
  lemma {:induction false} StemOfPrefix(stem: string, rest: string)
    requires '.' !in stem && (rest == [] || rest[0] == '.')
    ensures Stem(stem + rest) == stem
    decreases |stem|
  {
    if stem == [] {
      assert stem + rest == rest;
    } else {
      assert (stem + rest)[1..] == stem[1..] + rest;
      StemOfPrefix(stem[1..], rest);
    }
  }

  /**
   * Conditions under which the stem of `name` is `stem`, and it names no
   * device: `name` splits into `stem`, which has no period, and a rest that
   * is empty or starts with one.
   */
  predicate StemSplit(name: string, stem: string, rest: string) {
    && name == stem + rest
    && '.' !in stem && (rest == [] || rest[0] == '.')
    && !IsDeviceName(LowerAscii(stem))
  }

  lemma StemSplitNotReserved(name: string, stem: string, rest: string)
    requires StemSplit(name, stem, rest)
    ensures !IsReservedDeviceName(name)
  {
    StemOfPrefix(stem, rest);
  }

  /** A short enough name over the alphabet, not starting or ending with a period and naming no device, is accepted. */
  lemma AcceptedName(name: string, stem: string, rest: string)
    requires StemSplit(name, stem, rest)
    requires 0 < |name| <= MaxNameLength && All(name, IsNameChar)
    requires name[0] != '.' && name[|name| - 1] != '.'
    ensures ValidationError(name) == None
  {
    StemSplitNotReserved(name, stem, rest);
    NotBlankNorDots(name);
  }

  /** A name that passes the first five checks and holds a character outside the alphabet gets the invalid-characters message. */
  lemma RefusedCharacter(name: string, stem: string, rest: string, i: nat)
    requires StemSplit(name, stem, rest)
    requires Trim(name) != "" && name != "." && name != ".."
    requires 0 <= i < |name| <= MaxNameLength && !IsNameChar(name[i])
    requires !EndsWithSpaceOrPeriod(name)
    ensures ValidationError(name) == Some(InvalidCharacters)
  {
    StemSplitNotReserved(name, stem, rest);
    assert !All(name, IsNameChar);
  }

  /** Names made of letters, `-` and `_` are accepted. */
  lemma AcceptedExamples()
    ensures ValidateProjectName("my-project")
    ensures ValidateProjectName("my_project")
  {
    assert All("my-project", IsNameChar) && All("my_project", IsNameChar);
    AcceptedName("my-project", "my-project", []);
    AcceptedName("my_project", "my_project", []);
  }

  /** An inner period and digits are accepted too. */
  lemma AcceptedPeriodAndDigits()
    ensures ValidateProjectName("my.project")
    ensures ValidateProjectName("project-123")
  {
    assert All("my.project", IsNameChar) && All("project-123", IsNameChar);
    AcceptedName("my.project", "my", ".project");
    AcceptedName("project-123", "project-123", []);
  }

  /** The empty and the blank name are reported as empty. */
  lemma BlankExamples()
    ensures GetProjectNameValidationError("") == Some("Project name cannot be empty.")
    ensures GetProjectNameValidationError(" ") == Some("Project name cannot be empty.")
  {
    assert All(" ", IsWhitespace);
  }

  /** 215 letters fail the length check. */
  lemma LongExample()
    ensures GetProjectNameValidationError(seq(215, _ => 'a')) == Some("Project name must be less than 214 characters.")
  {
    NotBlankNorDots(seq(215, _ => 'a'));
  }

  /** `.` and `..` get the dot message. */
  lemma DotExamples()
    ensures GetProjectNameValidationError(".") == Some("Project name cannot be \".\" or \"..\".")
    ensures GetProjectNameValidationError("..") == Some("Project name cannot be \".\" or \"..\".")
  {
    assert !IsWhitespace("."[0]) && !IsWhitespace(".."[0]);
  }

  /** `con` and `prn.txt` get the reserved-name message, which quotes the name. */
  lemma ReservedExamples()
    ensures ValidationError("con") == Some(ReservedName("con"))
    ensures ValidationError("prn.txt") == Some(ReservedName("prn.txt"))
  {
    assert IsDeviceName(LowerAscii("con")) && IsDeviceName(LowerAscii("prn"));
    assert "prn" + "." + "txt" == "prn.txt";
    DeviceNamesRefused("con", "");
    DeviceNamesRefused("prn", "txt");
  }

  /** A name that passes the first four checks and ends with a space or a period gets the trailing message. */
  lemma TrailingRefused(name: string, stem: string, rest: string)
    requires StemSplit(name, stem, rest)
    requires Trim(name) != "" && name != "." && name != ".."
    requires |name| <= MaxNameLength && EndsWithSpaceOrPeriod(name)
    ensures ValidationError(name) == Some(TrailingSpaceOrPeriod)
  {
    StemSplitNotReserved(name, stem, rest);
  }

  /** A trailing space or period wins over the space inside. */
  lemma TrailingExamples()
    ensures GetProjectNameValidationError("my project ") == Some("Project name cannot end with a space or a period.")
    ensures GetProjectNameValidationError("my project.") == Some("Project name cannot end with a space or a period.")
  {
    NotBlankNorDots("my project ");
    NotBlankNorDots("my project.");
    TrailingRefused("my project ", "my project ", []);
    TrailingRefused("my project.", "my project", ".");
  }

  /** A space or a colon gets the invalid-characters message. */
  lemma SpaceAndColonExamples()
    ensures GetProjectNameValidationError("my project") == Some("Project name can only contain letters, numbers, hyphens, underscores, and periods.")
    ensures GetProjectNameValidationError("my:project") == Some("Project name can only contain letters, numbers, hyphens, underscores, and periods.")
  {
    assert !IsNameChar("my project"[2]) && !IsNameChar("my:project"[2]);
    NotBlankNorDots("my project");
    NotBlankNorDots("my:project");
    RefusedCharacter("my project", "my project", [], 2);
    RefusedCharacter("my:project", "my:project", [], 2);
  }

  /** Brackets and a backslash are refused. */
  lemma BracketAndBackslashExamples()
    ensures ValidationError("my[project]") == Some(InvalidCharacters)
    ensures ValidationError("my\\project") == Some(InvalidCharacters)
  {
    assert !IsNameChar("my[project]"[2]) && !IsNameChar("my\\project"[2]);
    NotBlankNorDots("my[project]");
    NotBlankNorDots("my\\project");
    RefusedCharacter("my[project]", "my[project]", [], 2);
    RefusedCharacter("my\\project", "my\\project", [], 2);
  }

  /** An absolute path is refused for its leading separator. */
  lemma AbsolutePathExample()
    ensures GetProjectNameValidationError("/absolute") == Some("Project name can only contain letters, numbers, hyphens, underscores, and periods.")
  {
    assert !IsNameChar("/absolute"[0]);
    NotBlankNorDots("/absolute");
    RefusedCharacter("/absolute", "/absolute", [], 0);
  }

  /** A path into the parent directory is refused for its separator. */
  lemma ParentPathExample(name: string)
    requires name == "../outside"
    ensures ValidationError(name) == Some(InvalidCharacters)
  {
    assert !IsNameChar(name[2]) && !IsWhitespace(name[0]) && |name| == 10;
    assert !All(name, IsWhitespace);
    RefusedCharacter(name, [], name, 2);
  }
}
