# my-stack-generator name and choice rules

`my-stack-generator` is a command-line scaffolder. It asks for a project name, a package manager and a backend, then writes a Vite + React project. Apart from prompting, writing files and spawning installers, it does three things: it decides which project names to accept, it turns the project name into an npm package name, and it resolves the typed answers to the package-manager and backend prompts. This project models those rules in Dafny and proves their properties.

The repository holds two variants of the name rules, and both are modelled separately:

- **Shipped rules** (module `LooseRules`, `index.js`):
  - `validateProjectName` refuses blank names, then any name holding `/`, `\` or `..`.
  - `sanitizePackageName` trims, lower-cases and maps every character outside `[a-z0-9-]` to `-`.
  - The install sub-command, dev flag and run hint are chosen per package manager.
- **Strict rules** (modules `ProjectName` and `PackageName`), fixed by the test suites:
  - `getProjectNameValidationError` runs six ordered checks, and the first one that fails decides the message. The checks are empty, too long, `.`/`..`, reserved Windows device name, trailing space or period, and a character outside `[A-Za-z0-9_.-]`.
  - Its boolean form is `validateProjectName`.
  - A throwing `sanitizePackageName` also strips outer dashes. It fails on an empty result, a result longer than 214 characters, or a Node built-in module name.
- **Resolvers** (module `Choice`): `resolvePackageManager`, `resolveBackend` and their aliases `parsePackageManagerChoice` and `parseBackendChoice`. Each trims and lower-cases the answer, then looks it up exactly among the numeric selectors and option names. A blank answer gives the default, and anything else gives nothing.

Module `Text` holds the string primitives: ASCII trimming, lower-casing, the package alphabet and dash stripping. Module `Variants` relates the two rule sets. Every function is total and pure. Errors are values (`Option`, `Result`, `Verdict`), never exceptions.

## Model

| member | source | states |
|---|---|---|
| Text.Trim | my-stack-generator/index.js:10 | JavaScript `trim()` restricted to ASCII whitespace; its properties are those of `Text.TrimBy` below, and `Text.TrimByPadding` and `Text.TrimByIdempotent` apply to it |
| Text.StripDashes | my-stack-generator/test-package-name.js:13-14 | removal of leading and trailing `-`; its properties are those of `Text.TrimBy`, and `PackageName.NormalizeSteps` shows where it is used |
| Text.TrimBy | my-stack-generator/index.js:10 | the trimmed string is no longer than the input, has no trimmed character at either end, and is empty exactly when every character of the input is trimmed |
| Text.TrimByInfix | my-stack-generator/index.js:18 | the trimmed string sits inside the input, with only trimmed characters before and after it |
| Text.TrimByIdempotent | my-stack-generator/index.js:18 | trimming twice is trimming once |
| Text.TrimByPadding | my-stack-generator/index.js:18 | padding a string with trimmed characters on both sides does not change its trimmed form |
| Text.LowerAscii | my-stack-generator/index.js:18 | lower-casing keeps the length and lowers each character in place |
| Text.LowerAsciiIdempotent | my-stack-generator/index.js:18 | lower-casing twice is lower-casing once |
| Text.MapToPackageAlphabet | my-stack-generator/index.js:18 | the replacement keeps the length, keeps characters of `[a-z0-9-]` and turns every other character into `-` |
| LooseRules.ValidateProjectName | my-stack-generator/index.js:9-15 | `validateProjectName`; `LooseRules.ValidateProjectNameCases` characterises each of its three outcomes |
| LooseRules.ValidateProjectNameCases | my-stack-generator/index.js:9-15 | a name is refused as required exactly when it is blank; it is refused for separators exactly when it is not blank and holds `/`, `\` or `..`; it is accepted exactly when neither holds |
| LooseRules.AcceptedNameIsOneSegment | my-stack-generator/index.js:11-14 | an accepted name, trimmed as the generator does before using it as a folder, is non-empty, not `..`, and holds no `/` or `\` |
| LooseRules.SanitizePackageName | my-stack-generator/index.js:17-19 | every output character is in `[a-z0-9-]`; the output is as long as the trimmed input; characters already in `[a-z0-9-]` keep their position, and uppercase letters become their lowercase forms |
| LooseRules.SanitizeKeepsPackageAlphabet | my-stack-generator/index.js:18 | a string over `[a-z0-9-]` is its own sanitized form |
| LooseRules.SanitizeIdempotent | my-stack-generator/index.js:18 | sanitizing twice is sanitizing once |
| LooseRules.InstallCommand | my-stack-generator/index.js:54-57 | the `installCmd` selection; `LooseRules.CommandsPerManager` states its value for each offered manager |
| LooseRules.DevFlag | my-stack-generator/index.js:106 | the `devFlag` selection; `LooseRules.CommandsPerManager` and `LooseRules.NpmSpellingsAgree` state its value |
| LooseRules.RunHint | my-stack-generator/index.js:112 | the run hint in the closing message; `LooseRules.CommandsPerManager` and `LooseRules.NpmSpellingsAgree` state its value |
| LooseRules.CommandsPerManager | my-stack-generator/index.js:54-57 | npm is told `install`, `--save-dev` and `npm run dev`; pnpm and bun are told `add`, `-D` and `<pm> dev` |
| LooseRules.NpmSpellingsAgree | my-stack-generator/index.js:106 | for every offered manager, the install sub-command is `install` exactly when the dev flag is `--save-dev`, and exactly when the run hint is `npm run dev` |
| ProjectName.ValidationError | my-stack-generator/test-validation-errors.js:4-54 | the ordered checks behind `getProjectNameValidationError`; `ProjectName.FirstFailingCheckWins` states the order, and the table lemmas below state each row |
| ProjectName.GetProjectNameValidationError | my-stack-generator/test-validation-errors.js:4-54 | `getProjectNameValidationError`: the message of the first failing check, or nothing; the message tables below state the exact texts |
| ProjectName.ValidateProjectName | my-stack-generator/test-validation.js:4-23 | the boolean strict `validateProjectName`, true exactly when there is no error; `ProjectName.ValidIffWellFormed` characterises it |
| ProjectName.StemShape | my-stack-generator/test-validation-errors.js:30-33 | the stem checked for device names is the prefix of the name before its first period |
| ProjectName.FirstFailingCheckWins | my-stack-generator/test-validation-errors.js:4-54 | the error reported is the first failing check in the order empty, too long, dots, reserved, trailing, characters, and every earlier check passes; no error exactly when no check fails |
| ProjectName.ValidIffWellFormed | my-stack-generator/test-validation.js:4-23 | the boolean validator accepts a name exactly when it has 1 to 214 characters, all from `[A-Za-z0-9_.-]`, is neither `.` nor `..`, names no device and does not end in a period (a space is already excluded by the alphabet) |
| ProjectName.AcceptedNameStaysInside | my-stack-generator/test-validation.js:20-21 | an accepted name holds no `/` or `\`, is neither `.` nor `..`, and has no surrounding whitespace |
| ProjectName.DeviceNamesRefused | my-stack-generator/test-validation-errors.js:26-33 | a device name in any letter case gets the reserved-name error quoting the name; so does the device name followed by a period and an extension, as long as the whole name is at most 214 characters |
| ProjectName.DeviceNameShape | my-stack-generator/test-validation-errors.js:26-33 | every device name starts with a lowercase letter and holds no period, so it never collides with the earlier checks |
| ProjectName.StemOfPrefix | my-stack-generator/test-validation-errors.js:30-33 | a period-free prefix followed by nothing or by a period-led rest is the stem |
| ProjectName.NotBlankNorDots | my-stack-generator/test-validation-errors.js:10-25 | a name that starts with neither whitespace nor a period passes the empty and dot checks |
| ProjectName.AcceptedName | my-stack-generator/test-validation.js:5-8 | a name of at most 214 characters of `[A-Za-z0-9_.-]`, not starting or ending with a period and naming no device, is accepted |
| ProjectName.RefusedCharacter | my-stack-generator/test-validation-errors.js:42-53 | a name that passes the first five checks (trimmed non-empty, at most 214 characters, neither `.` nor `..`, a stem naming no device, no trailing space or period) and holds a character outside the alphabet gets the invalid-characters error |
| ProjectName.TrailingRefused | my-stack-generator/test-validation-errors.js:34-41 | a name that passes the first four checks (trimmed non-empty, at most 214 characters, neither `.` nor `..`, a stem naming no device) and ends in a space or period gets the trailing error, whatever other characters it holds |
| ProjectName.AcceptedExamples | my-stack-generator/test-validation-errors.js:6-7 | `my-project` and `my_project` are valid |
| ProjectName.AcceptedPeriodAndDigits | my-stack-generator/test-validation.js:7-8 | `my.project` and `project-123` are valid |
| ProjectName.BlankExamples | my-stack-generator/test-validation-errors.js:10-13 | `''` and `' '` get "Project name cannot be empty." |
| ProjectName.LongExample | my-stack-generator/test-validation-errors.js:14-17 | 215 `a`s get "Project name must be less than 214 characters." |
| ProjectName.DotExamples | my-stack-generator/test-validation-errors.js:18-25 | `.` and `..` get the dot message |
| ProjectName.ReservedExamples | my-stack-generator/test-validation-errors.js:26-33 | `con` and `prn.txt` get the reserved-name error quoting the name |
| ProjectName.TrailingExamples | my-stack-generator/test-validation-errors.js:34-41 | `my project ` and `my project.` get the trailing message, not the invalid-characters one |
| ProjectName.SpaceAndColonExamples | my-stack-generator/test-validation-errors.js:42-49 | `my project` and `my:project` get the invalid-characters message |
| ProjectName.BracketAndBackslashExamples | my-stack-generator/test-validation.js:18-19 | `my[project]` and `my\project` are refused for their characters |
| ProjectName.AbsolutePathExample | my-stack-generator/test-validation-errors.js:50-53 | `/absolute` gets the invalid-characters message |
| ProjectName.ParentPathExample | my-stack-generator/test-validation.js:20 | `../outside` is refused for its characters |
| PackageName.SanitizePackageName | my-stack-generator/test-package-name.js:5-44 | the throwing strict `sanitizePackageName`, with the error as a value; `PackageName.SanitizeSuccess`, `PackageName.SanitizeFixpoints` and `PackageName.EmptyErrorIff` state its properties |
| PackageName.Normalize | my-stack-generator/test-package-name.js:13-14 | the strict normal form is over `[a-z0-9-]`, neither starts nor ends with `-`, and is no longer than the input |
| PackageName.SanitizeSuccess | my-stack-generator/test-sanitization.js:7-30 | a successful result is non-empty, at most 214 characters, outside the reserved set, and over `[a-z0-9-]` without outer dashes |
| PackageName.NormalizeKeepsCanonical | my-stack-generator/test-package-name.js:7 | a string already in normal form is left unchanged |
| PackageName.NormalizeIdempotent | my-stack-generator/test-sanitization.js:7-30 | normalizing twice is normalizing once |
| PackageName.SanitizeFixpoint | my-stack-generator/test-sanitization.js:7-30 | every successful result sanitizes to itself |
| PackageName.SanitizeFixpoints | my-stack-generator/test-sanitization.js:7-30 | a string sanitizes to itself exactly when it is non-empty, at most 214 characters, in normal form, and not reserved |
| PackageName.EmptyIffNoAlphanumeric | my-stack-generator/test-sanitization.js:32-34 | the normal form is empty exactly when the input holds no ASCII letter or digit |
| PackageName.EmptyErrorIff | my-stack-generator/test-package-name.js:37-40 | sanitizing fails as empty exactly when the input holds no ASCII letter or digit |
| PackageName.NoUnderscoreOrPeriod | my-stack-generator/test-package-name.js:20-30 | a successful result holds no `_` or `.`, so it is never `node_modules` or `favicon.ico` |
| PackageName.OnlyCanonicalReservedNamesMatter | my-stack-generator/test-package-name.js:20-30 | entries of the reserved list that are not in normal form can never be hit |
| PackageName.LongAlphanumericTooLong | my-stack-generator/test-sanitization.js:68-79 | a lowercase alphanumeric input over 214 characters fails as too long |
| PackageName.NormalizeSteps | my-stack-generator/test-package-name.js:13-14 | trimming, mapping and dash stripping compose: the normal form is the mapped core between the outer dashes |
| PackageName.Accepted | my-stack-generator/test-package-name.js:5-19 | a normal form that is non-empty, short enough and not reserved is the successful result |
| PackageName.KeptAndLoweredExamples | my-stack-generator/test-sanitization.js:8-22 | `my-project`, `MyProject` and `a---b` sanitize to `my-project`, `myproject` and `a---b` |
| PackageName.TrimmedExamples | my-stack-generator/test-package-name.js:9 | `'  my-project  '` and `'   trimmed   '` sanitize to `my-project` and `trimmed` |
| PackageName.SeparatorExamples | my-stack-generator/test-package-name.js:10-18 | `my.project`, `my_project` and `my/project` sanitize to `my-project`; `node_modules` and `favicon.ico` sanitize to `node-modules` and `favicon-ico` |
| PackageName.ScopedExample | my-stack-generator/test-package-name.js:13 | `@scope/pkg` sanitizes to `scope-pkg` |
| PackageName.OuterDashExamples | my-stack-generator/test-package-name.js:14 | `---test---` and `-both-` sanitize to `test` and `both` |
| PackageName.SpecialCharacterExamples | my-stack-generator/test-sanitization.js:11-16 | `My Project`, `project.name` and `foo@bar` sanitize to `my-project`, `project-name` and `foo-bar` |
| PackageName.OneSidedDashExamples | my-stack-generator/test-sanitization.js:19-20 | `-start` and `end-` sanitize to `start` and `end` |
| PackageName.EmptyExamples | my-stack-generator/test-package-name.js:37-40 | `''`, `'   '`, `'---'` and `'???'` fail with "Package name cannot be empty" |
| PackageName.BuiltinExamples | my-stack-generator/test-package-name.js:32-35 | `fs`, `http` and `path`, when in the built-in list, fail with "Reserved package name" |
| PackageName.LongExamples | my-stack-generator/test-package-name.js:42-43 | 215 and 10000 `a`s fail with "Package name too long" |
| Choice.Resolve | my-stack-generator/test-input-resolution.js:6-47 | trim, lower-case, then exact lookup; `Choice.ResolveIgnoresPaddingAndCase`, `Choice.BlankAnswerIsDefault` and `Choice.ResolveWithinOptions` state its properties |
| Choice.ResolvePackageManager | my-stack-generator/test-input-resolution.js:6-18 | `resolvePackageManager`; `Choice.ResolvePackageManagerIff` characterises it |
| Choice.ResolveBackend | my-stack-generator/test-input-resolution.js:37-47 | `resolveBackend`; `Choice.ResolveBackendIff` characterises it |
| Choice.ParsePackageManagerChoice | my-stack-generator/test-selection.js:19-29 | `parsePackageManagerChoice`; `Choice.ParseChoicesTable` shows it equals `resolvePackageManager` on every answer |
| Choice.ParseBackendChoice | my-stack-generator/test-selection.js:32-38 | `parseBackendChoice`; `Choice.ParseChoicesTable` shows it equals `resolveBackend` on every answer |
| Choice.BlankAnswerIsDefault | my-stack-generator/test-input-resolution.js:10 | a blank answer resolves to the prompt's default |
| Choice.ResolveIgnoresPaddingAndCase | my-stack-generator/test-input-resolution.js:12-17 | surrounding whitespace and letter case never change what an answer resolves to |
| Choice.LowerAsciiTrimCommute | my-stack-generator/test-input-resolution.js:17 | lower-casing and trimming commute |
| Choice.LookupPackageManagerIff | my-stack-generator/test-input-resolution.js:6-18 | a key selects a manager exactly when it is empty (npm), the manager's name, or its number |
| Choice.ResolvePackageManagerIff | my-stack-generator/test-input-resolution.js:6-18 | an answer selects a manager exactly when, trimmed and lower-cased, it is empty (npm), the manager's name or its number |
| Choice.LookupBackendIff | my-stack-generator/test-input-resolution.js:37-47 | a key selects a backend exactly when it is empty (firebase), the backend's name, or its number |
| Choice.ResolveBackendIff | my-stack-generator/test-input-resolution.js:37-47 | an answer selects a backend exactly when, trimmed and lower-cased, it is empty (firebase), the backend's name or its number |
| Choice.KeyOfLowerTrimmed | my-stack-generator/test-input-resolution.js:11-14 | a string with no uppercase letter and no surrounding whitespace is its own lookup key |
| Choice.PackageManagerKeys | my-stack-generator/test-input-resolution.js:7-14 | each manager's name and number are their own lookup keys |
| Choice.BackendKeys | my-stack-generator/test-input-resolution.js:38-43 | each backend's name and number are their own lookup keys |
| Choice.PackageManagerRoundTrip | my-stack-generator/test-input-resolution.js:7-17 | a manager's name in any case with any padding, or its padded number, resolves back to that manager |
| Choice.BackendRoundTrip | my-stack-generator/test-input-resolution.js:38-46 | a backend's name in any case with any padding, or its padded number, resolves back to that backend |
| Choice.PackageManagerSelectors | my-stack-generator/test-input-resolution.js:7-14 | `1`, `2`, `3` and the names select npm, pnpm and bun; `''` selects npm |
| Choice.PackageManagerUpperCase | my-stack-generator/test-input-resolution.js:12 | `NPM` selects npm |
| Choice.PackageManagerPadded | my-stack-generator/test-selection.js:20 | `'  npm  '` and `' 1 '` select npm |
| Choice.PackageManagerUnknown | my-stack-generator/test-input-resolution.js:15-16 | `yarn` and `4` resolve to nothing |
| Choice.BackendSelectors | my-stack-generator/test-input-resolution.js:38-43 | `1`, `2` and the names select firebase and supabase; `''` selects firebase |
| Choice.BackendUpperCase | my-stack-generator/test-input-resolution.js:42 | `FIREBASE` selects firebase |
| Choice.BackendPadded | my-stack-generator/test-input-resolution.js:46 | `'  Supabase  '` selects supabase |
| Choice.BackendUnknown | my-stack-generator/test-input-resolution.js:44-45 | `aws` and `3` resolve to nothing |
| Choice.ParseChoicesTable | my-stack-generator/test-selection.js:19-38 | the parse functions agree with the resolvers on every answer, and `Firebase` selects firebase |
| Choice.ResolveWithinOptions | my-stack-generator/test-input-resolution.js:44-45 | whatever an answer resolves to is the default or one of the listed options |
| Variants.StrictIsLooseStripped | my-stack-generator/index.js:17-19 | the strict normal form is the shipped sanitizer's output with its outer dashes stripped, so it is never longer |
| Variants.StrictValidIsLooseValid | my-stack-generator/index.js:9-15 | a strictly valid name without `..` is accepted by the shipped check |
| Variants.DoubleDotInsideName | my-stack-generator/index.js:11 | `a..b` is strictly valid but refused by the shipped check for its separator |
| Variants.LooseAcceptsPlainName | my-stack-generator/index.js:14 | the shipped check accepts any name that does not start blank and holds no `/`, `\` or `.` |
| Variants.SpaceOnlyStrictlyRefused | my-stack-generator/test-validation-errors.js:43-44 | `my project` is accepted by the shipped check and refused by the strict one for its characters |
| Variants.StrictValidNeverTooLong | my-stack-generator/test-package-name.js:43 | a strictly valid project name never sanitizes to the too-long error |
| Variants.DashesOnly | my-stack-generator/test-package-name.js:40 | `---` is a strictly valid project name with no package name |
| Variants.ShippedOverlongPackageName | my-stack-generator/index.js:9-19 | the shipped rules accept 215 `a`s and write them unchanged as a 215-character package name, which the strict sanitizer refuses as too long |

## Left out

- Everything in `main` apart from the install-command strings is not modelled. That covers the prompts, `process.exit`, existence checks, folder creation, the parallel file writes and the spawned installers. It is all I/O and process spawning.
- `templates.js` is not part of this model. It is a static map of file contents with no logic.
- `checkPackageManager`, its concurrent checks and `bench_check.js` are not part of this model. They spawn external processes and measure time.
- The time measurement around the 10000-character input is not modelled. Only the rejection of that input is.
- The test harnesses are not modelled: their loops, counters and console output.
- Node's `builtinModules` list is a runtime value of the platform. The strict sanitizer takes the reserved list as a parameter, `reserved`.
- LooseRules.SanitizePackageName, ProjectName.ValidationError, PackageName.SanitizePackageName: strings are sequences of Unicode scalar values, while JavaScript strings are sequences of UTF-16 code units. A character outside the Basic Multilingual Plane (an emoji, say) counts once towards the 214 limits here, where JavaScript counts it twice. The shipped sanitizer's regular expression has no `u` flag, so JavaScript turns such a character into two `-`; here it becomes one. For example, `a😀b` sanitizes to `a--b` in JavaScript and to `a-b` here, and 200 emoji fail the length check in JavaScript but the character check here.
- Case and whitespace are ASCII only. `LowerAscii` lowers `A`–`Z`, and whitespace is space plus tab through carriage return. JavaScript's Unicode `toLowerCase` and `trim` classes are not modelled.
- The strict functions (`getProjectNameValidationError`, the boolean strict `validateProjectName`, the throwing `sanitizePackageName`, and the four resolvers) are not defined in the `index.js` shown. They are modelled from the test tables that import them. Where a table leaves a detail open, the model makes a choice, and each choice is listed below.
- ProjectName.ValidationError: the empty check runs on the trimmed name, and the other five checks run on the raw name. This is why `my project ` gets the trailing message.
- ProjectName.ValidationError: the length limit is `MaxNameLength = 214`, and names longer than it are refused. The tests pin only that 215 characters are refused, while the message says "less than 214", so a 214-character name may or may not have been meant to pass. PackageName uses the same limit, `MaxPackageNameLength = 214`.
- ProjectName.IsReservedDeviceName: the device names are `con`, `prn`, `aux`, `nul` and `com1`–`com9`/`lpt1`–`lpt9`, in any case, matched against the part of the name before its first period. The tests pin only `con` and `prn.txt`.
- ProjectName.ReservedExamples: states the error kind, `ReservedName(name)`, and not the rendered message. The message text is defined by `NameError.Message` exactly as the test expects it. It is not stated as a lemma about the literal, because that proof is too expensive.
- PackageName.SanitizePackageName: the too-long check runs before the reserved check. No test has an input that fails both.
- PackageName.SanitizeError.Message: the tests match the errors by substring, so the messages are modelled as exactly the matched text.
- PackageName.BuiltinExamples: states the result only when the name is in the reserved list, because the list is a parameter.
- Injectivity of the strict error messages is not proved (distinct errors give distinct messages). The proof over the literal messages is too expensive. The tables state the rendered messages where the tests check them.

## Findings

| source | as written | input that shows it | evidently intended | confidence | as-written member | corrected member |
|---|---|---|---|---|---|---|
| my-stack-generator/index.js:9-19 | the shipped validator puts no limit on length, and the shipped sanitizer writes the trimmed, lower-cased name unchanged as the package name | a project name of 215 `a`s is accepted and becomes a 215-character package name, over npm's limit of 214 | a package name longer than 214 characters is refused, as the strict sanitizer does | not executed | Variants.ShippedOverlongPackageName | PackageName.SanitizeSuccess |
