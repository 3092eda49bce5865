/**
 * The selection resolvers of the scaffolder: a free-text answer to the
 * package-manager or backend prompt becomes one of a closed set of options,
 * the prompt's default on an empty answer, or nothing (`null`) otherwise.
 */
module Choice {
  import opened Wrappers
  import opened Text

  /** The answers one prompt accepts: numeric selectors, option names, and the default. */
  datatype ChoiceSpec<T> = ChoiceSpec(tokens: map<string, T>, names: map<string, T>, default: T)

  /** The lookup key of a raw answer: trimmed, then lower-cased. */
  function Key(raw: string): string { LowerAscii(Trim(raw)) }

  /**
   * An empty answer selects the default; otherwise the key must equal an
   * option name or a numeric selector exactly (no prefix or substring match).
   */
  function Resolve<T>(raw: string, spec: ChoiceSpec<T>): Option<T>
  {
    Lookup(Key(raw), spec)
  }

  /** The exact-match lookup of a key that is already trimmed and lower-cased. */
  function Lookup<T>(key: string, spec: ChoiceSpec<T>): Option<T> {
    if key == "" then Some(spec.default)
    else if key in spec.names then Some(spec.names[key])
    else if key in spec.tokens then Some(spec.tokens[key])
    else None
  }

  /** The answer is the empty string once trimmed. */
  lemma BlankAnswerIsDefault<T>(raw: string, spec: ChoiceSpec<T>)
    requires All(raw, IsWhitespace)
    ensures Resolve(raw, spec) == Some(spec.default)
  {
  }

  /** Surrounding whitespace and letter case never change the resolved option. */
  lemma ResolveIgnoresPaddingAndCase<T>(w1: string, raw: string, w2: string, other: string, spec: ChoiceSpec<T>)
    requires All(w1, IsWhitespace) && All(w2, IsWhitespace)
    requires LowerAscii(raw) == LowerAscii(other)
    ensures Resolve(w1 + raw + w2, spec) == Resolve(other, spec)
  {
    TrimByPadding(w1, raw, w2, IsWhitespace);
    LowerAsciiTrimCommute(raw);
    LowerAsciiTrimCommute(other);
  }

  /** Lower-casing keeps whitespace where it is, so it commutes with trimming. */
  lemma LowerAsciiTrimCommute(s: string)
    ensures LowerAscii(Trim(s)) == Trim(LowerAscii(s))
  {
    LowerAsciiTrimStart(s);
    LowerAsciiTrimEnd(TrimStartBy(s, IsWhitespace));
  }

  lemma {:induction false} LowerAsciiTrimStart(s: string)
    ensures LowerAscii(TrimStartBy(s, IsWhitespace)) == TrimStartBy(LowerAscii(s), IsWhitespace)
    decreases |s|
  {
    if |s| > 0 {
      assert LowerAscii(s)[1..] == LowerAscii(s[1..]);
      LowerAsciiTrimStart(s[1..]);
    }
  }

  lemma {:induction false} LowerAsciiTrimEnd(s: string)
    ensures LowerAscii(TrimEndBy(s, IsWhitespace)) == TrimEndBy(LowerAscii(s), IsWhitespace)
    decreases |s|
  {
    if |s| > 0 {
      assert LowerAscii(s)[..|s| - 1] == LowerAscii(s[..|s| - 1]);
      LowerAsciiTrimEnd(s[..|s| - 1]);
    }
  }

  /** The package managers the scaffolder offers. */
  datatype PackageManager = Npm | Pnpm | Bun {
    /** The command name, which is also the value the prompt yields. */
    function Name(): string {
      match this
      case Npm => "npm"
      case Pnpm => "pnpm"
      case Bun => "bun"
    }

    /** The numeric selector shown beside the option. */
    function Number(): string {
      match this
      case Npm => "1"
      case Pnpm => "2"
      case Bun => "3"
    }
  }

  /** The backends the scaffolder offers. */
  datatype Backend = Firebase | Supabase {
    function Name(): string {
      match this
      case Firebase => "firebase"
      case Supabase => "supabase"
    }

    function Number(): string {
      match this
      case Firebase => "1"
      case Supabase => "2"
    }
  }

  const PackageManagerChoices: ChoiceSpec<PackageManager> :=
    ChoiceSpec(map["1" := Npm, "2" := Pnpm, "3" := Bun],
               map["npm" := Npm, "pnpm" := Pnpm, "bun" := Bun],
               Npm)

  const BackendChoices: ChoiceSpec<Backend> :=
    ChoiceSpec(map["1" := Firebase, "2" := Supabase],
               map["firebase" := Firebase, "supabase" := Supabase],
               Firebase)

  /** `resolvePackageManager`: npm by default. */
  function ResolvePackageManager(raw: string): Option<PackageManager> {
    Resolve(raw, PackageManagerChoices)
  }

  /** `resolveBackend`: firebase by default. */
  function ResolveBackend(raw: string): Option<Backend> {
    Resolve(raw, BackendChoices)
  }

  /** `parsePackageManagerChoice`, which behaves exactly as `resolvePackageManager`. */
  function ParsePackageManagerChoice(raw: string): Option<PackageManager> {
    ResolvePackageManager(raw)
  }

  /** `parseBackendChoice`, which behaves exactly as `resolveBackend`. */
  function ParseBackendChoice(raw: string): Option<Backend> {
    ResolveBackend(raw)
  }

  /** A key selects a package manager exactly when it is empty (npm), the manager's name, or its number. */
  lemma LookupPackageManagerIff(key: string, pm: PackageManager)
    ensures Lookup(key, PackageManagerChoices) == Some(pm) <==> (key == "" && pm == Npm) || key == pm.Name() || key == pm.Number()
  {
    var names := PackageManagerChoices.names;
    var tokens := PackageManagerChoices.tokens;
    if key == "" {
    } else if key in names {
      assert names[key].Name() == key && |key| >= 3 && |pm.Number()| == 1;
    } else if key in tokens {
      assert tokens[key].Number() == key && |key| == 1 && |pm.Name()| >= 3;
    }
  }

  /** An answer selects a package manager exactly when it is blank (npm), its name, or its number. */
  lemma ResolvePackageManagerIff(raw: string, pm: PackageManager)
    ensures ResolvePackageManager(raw) == Some(pm) <==>
      (All(raw, IsWhitespace) && pm == Npm) || Key(raw) == pm.Name() || Key(raw) == pm.Number()
  {
    assert Key(raw) == "" <==> All(raw, IsWhitespace);
    LookupPackageManagerIff(Key(raw), pm);
  }

  /** A key selects a backend exactly when it is empty (firebase), the backend's name, or its number. */
  lemma LookupBackendIff(key: string, b: Backend)
    ensures Lookup(key, BackendChoices) == Some(b) <==> (key == "" && b == Firebase) || key == b.Name() || key == b.Number()
  {
    var names := BackendChoices.names;
    var tokens := BackendChoices.tokens;
    if key == "" {
    } else if key in names {
      assert names[key].Name() == key && |key| >= 3 && |b.Number()| == 1;
    } else if key in tokens {
      assert tokens[key].Number() == key && |key| == 1 && |b.Name()| >= 3;
    }
  }

  /** An answer selects a backend exactly when it is blank (firebase), its name, or its number. */
  lemma ResolveBackendIff(raw: string, b: Backend)
    ensures ResolveBackend(raw) == Some(b) <==>
      (All(raw, IsWhitespace) && b == Firebase) || Key(raw) == b.Name() || Key(raw) == b.Number()
  {
    assert Key(raw) == "" <==> All(raw, IsWhitespace);
    LookupBackendIff(Key(raw), b);
  }

  /** A string with no uppercase letter and no whitespace at either end is its own key. */
  lemma KeyOfLowerTrimmed(s: string)
    requires forall i :: 0 <= i < |s| ==> !IsUpper(s[i])
    requires s == [] || (!IsWhitespace(s[0]) && !IsWhitespace(s[|s| - 1]))
    ensures Key(s) == s
  {
    TrimByKeeps(s, IsWhitespace);
  }

  /** A manager's name and number are already their own keys. */
  lemma PackageManagerKeys(pm: PackageManager)
    ensures Key(pm.Name()) == pm.Name() && LowerAscii(pm.Name()) == pm.Name()
    ensures Key(pm.Number()) == pm.Number()
  {
    match pm
    case Npm =>
      KeyOfLowerTrimmed("npm");
      TrimByKeeps("npm", IsWhitespace);
      KeyOfLowerTrimmed("1");
    case Pnpm =>
      KeyOfLowerTrimmed("pnpm");
      TrimByKeeps("pnpm", IsWhitespace);
      KeyOfLowerTrimmed("2");
    case Bun =>
      KeyOfLowerTrimmed("bun");
      TrimByKeeps("bun", IsWhitespace);
      KeyOfLowerTrimmed("3");
  }

  /** A backend's name and number are already their own keys. */
  lemma BackendKeys(b: Backend)
    ensures Key(b.Name()) == b.Name() && LowerAscii(b.Name()) == b.Name()
    ensures Key(b.Number()) == b.Number()
  {
    match b
    case Firebase =>
      KeyOfLowerTrimmed("firebase");
      TrimByKeeps("firebase", IsWhitespace);
      KeyOfLowerTrimmed("1");
    case Supabase =>
      KeyOfLowerTrimmed("supabase");
      TrimByKeeps("supabase", IsWhitespace);
      KeyOfLowerTrimmed("2");
  }

  /** A manager's name, in any letter case and with any surrounding whitespace, selects it; so does its number. */
  lemma PackageManagerRoundTrip(pm: PackageManager, w1: string, typed: string, w2: string)
    requires All(w1, IsWhitespace) && All(w2, IsWhitespace)
    ensures LowerAscii(typed) == pm.Name() ==> ResolvePackageManager(w1 + typed + w2) == Some(pm)
    ensures ResolvePackageManager(w1 + pm.Number() + w2) == Some(pm)
  {
    PackageManagerKeys(pm);
    LookupPackageManagerIff(pm.Name(), pm);
    LookupPackageManagerIff(pm.Number(), pm);
    ResolveIgnoresPaddingAndCase(w1, pm.Number(), w2, pm.Number(), PackageManagerChoices);
    if LowerAscii(typed) == pm.Name() {
      ResolveIgnoresPaddingAndCase(w1, typed, w2, pm.Name(), PackageManagerChoices);
    }
  }

  /** A backend's name, in any letter case and with any surrounding whitespace, selects it; so does its number. */
  lemma BackendRoundTrip(b: Backend, w1: string, typed: string, w2: string)
    requires All(w1, IsWhitespace) && All(w2, IsWhitespace)
    ensures LowerAscii(typed) == b.Name() ==> ResolveBackend(w1 + typed + w2) == Some(b)
    ensures ResolveBackend(w1 + b.Number() + w2) == Some(b)
  {
    BackendKeys(b);
    LookupBackendIff(b.Name(), b);
    LookupBackendIff(b.Number(), b);
    ResolveIgnoresPaddingAndCase(w1, b.Number(), w2, b.Number(), BackendChoices);
    if LowerAscii(typed) == b.Name() {
      ResolveIgnoresPaddingAndCase(w1, typed, w2, b.Name(), BackendChoices);
    }
  }

  /** Package-manager table: each number and each name selects its manager, and a blank answer selects npm. */
  lemma PackageManagerSelectors()
    ensures forall pm: PackageManager :: ResolvePackageManager(pm.Number()) == Some(pm) && ResolvePackageManager(pm.Name()) == Some(pm)
    ensures ResolvePackageManager("") == Some(Npm)
  {
    forall pm: PackageManager ensures ResolvePackageManager(pm.Number()) == Some(pm) && ResolvePackageManager(pm.Name()) == Some(pm) {
      PackageManagerKeys(pm);
      LookupPackageManagerIff(pm.Name(), pm);
      LookupPackageManagerIff(pm.Number(), pm);
    }
  }

  /** Package-manager table: upper case is ignored. */
  lemma PackageManagerUpperCase()
    ensures ResolvePackageManager("NPM") == Some(Npm)
  {
    assert LowerAscii("NPM") == "npm";
    ResolveIgnoresPaddingAndCase("", "NPM", "", "npm", PackageManagerChoices);
    assert "" + "NPM" + "" == "NPM";
    PackageManagerKeys(Npm);
  }

  /** Package-manager table: surrounding spaces are ignored, around a name or a number. */
  lemma PackageManagerPadded()
    ensures ResolvePackageManager("  npm  ") == Some(Npm)
    ensures ResolvePackageManager(" 1 ") == Some(Npm)
  {
    assert ResolvePackageManager("  npm  ") == Some(Npm) by {
      assert "  " + "npm" + "  " == "  npm  ";
      PackageManagerRoundTrip(Npm, "  ", "npm", "  ");
    }
    assert " " + "1" + " " == " 1 ";
    PackageManagerRoundTrip(Npm, " ", "npm", " ");
  }

  /** Package-manager table: an unknown manager and an out-of-range number resolve to nothing. */
  lemma PackageManagerUnknown()
    ensures ResolvePackageManager("yarn") == None
    ensures ResolvePackageManager("4") == None
  {
    assert ResolvePackageManager("yarn") == None by { KeyOfLowerTrimmed("yarn"); }
    KeyOfLowerTrimmed("4");
  }

  /** Backend table: each number and each name selects its backend, and a blank answer selects firebase. */
  lemma BackendSelectors()
    ensures forall b: Backend :: ResolveBackend(b.Number()) == Some(b) && ResolveBackend(b.Name()) == Some(b)
    ensures ResolveBackend("") == Some(Firebase)
  {
    forall b: Backend ensures ResolveBackend(b.Number()) == Some(b) && ResolveBackend(b.Name()) == Some(b) {
      BackendKeys(b);
      LookupBackendIff(b.Name(), b);
      LookupBackendIff(b.Number(), b);
    }
  }

  /** Backend table: upper case is ignored. */
  lemma BackendUpperCase()
    ensures ResolveBackend("FIREBASE") == Some(Firebase)
  {
    assert LowerAscii("FIREBASE") == "firebase";
    ResolveIgnoresPaddingAndCase("", "FIREBASE", "", "firebase", BackendChoices);
    assert "" + "FIREBASE" + "" == "FIREBASE";
    BackendKeys(Firebase);
  }

  /** Backend table: surrounding spaces and a capital initial are ignored. */
  lemma BackendPadded()
    ensures ResolveBackend("  Supabase  ") == Some(Supabase)
  {
    assert "  " + "Supabase" + "  " == "  Supabase  ";
    assert LowerAscii("Supabase") == "supabase";
    BackendRoundTrip(Supabase, "  ", "Supabase", "  ");
  }

  /**
   * The selection tests: the parse functions answer as the resolvers do, so a
   * padded number and a capitalised name select as expected there too.
   */
  lemma ParseChoicesTable()
    ensures forall raw :: ParsePackageManagerChoice(raw) == ResolvePackageManager(raw) && ParseBackendChoice(raw) == ResolveBackend(raw)
    ensures ParseBackendChoice("Firebase") == Some(Firebase)
  {
    assert LowerAscii("Firebase") == "firebase";
    ResolveIgnoresPaddingAndCase("", "Firebase", "", "firebase", BackendChoices);
    assert "" + "Firebase" + "" == "Firebase";
    BackendKeys(Firebase);
  }

  /** Backend table: an unknown backend and an out-of-range number resolve to nothing. */
  lemma BackendUnknown()
    ensures ResolveBackend("aws") == None
    ensures ResolveBackend("3") == None
  {
    assert ResolveBackend("aws") == None by { KeyOfLowerTrimmed("aws"); }
    KeyOfLowerTrimmed("3");
  }

  /** Whatever an answer resolves to is the default or one of the options the prompt lists. */
  lemma ResolveWithinOptions<T>(raw: string, spec: ChoiceSpec<T>)
    ensures Resolve(raw, spec).Some? ==>
      Resolve(raw, spec).value in {spec.default} + spec.names.Values + spec.tokens.Values
  {
    var key := Key(raw);
    if key != "" && key in spec.names {
      assert spec.names[key] in spec.names.Values;
    } else if key != "" && key in spec.tokens {
      assert spec.tokens[key] in spec.tokens.Values;
    }
  }
}
