# Python FaaS handler and runtime resolution, modelled in Dafny

This project models the part of Pants' Python "function as a service"
packaging (AWS Lambda and Google Cloud Functions targets) that decides what
goes into the package:

- **Handler field.** A `handler` value has the form `<module>:<func>` or
  `<file>.py:<func>`. Constructing the field rejects a value with no `:`.
- **Handler resolution.** A module-form handler is used verbatim. A
  file-form handler is globbed relative to the target's directory. No match
  is an `Unmatched glob` error and several matches are an error. The one
  match has its source root stripped and is turned into a dotted module name.
- **Dependency inference.** The owners of the handler's module become the
  inferred dependency when there is exactly one of them. When there are
  several, two things narrow them:
  - `!` exclusions in the target's `dependencies`;
  - for a file-form handler, the rule that an owner's directory must be
    the target's directory or one of its ancestors.

  When more than one owner still remains, nothing is inferred and a warning
  lists the candidates, sorted. A global switch turns inference off.
- **Runtime platforms.** An explicit `complete_platforms` override wins.
  Otherwise, in order:
  - a declared `runtime` is parsed and looked up in the registry of known
    runtimes;
  - otherwise the interpreter constraints must narrow to exactly one minor
    Python release, which is then looked up;
  - otherwise the target's runtime cannot be inferred.

  An unknown version gives an error that says whether the version was
  specified or inferred. Constraints that cannot be inferred give an error
  that names the target and shows the constraints.
- **Output file name.** The `FLAT_ZIPPED` layout appends `.zip` to the
  output name; the other layouts leave it unchanged.

The model is purely functional. The build graph appears only as
parameters:
- a glob function from a pattern to the files it matches, in order;
- an owners function from a module name to the addresses that provide it;
- the set of source-root directories;
- an on/off flag for inference.

Errors are values of `Result` datatypes. Every case of the test suite
`src/python/pants/backend/python/util_rules/faas_test.py` that the model
covers is stated as a lemma: in the `*Examples` modules, and in `Layout`
for the output-name case, together with general lemmas about the
operations.

The production module `faas.py` is not part of this model. Its behaviour is
taken from the expectations its test suite states. That suite's
`TestRuntimeField` (a registry with `3.45` and `67.89` on x86-64, a version
read by splitting on `.`, and a `test:` text for an inferred version) is the
runtime field modelled here.

Modules:
- `Wrappers`: `Option` and `Result`.
- `Strings`: split and join, search, code-point order, insertion sort, and
  integer parsing and printing.
- `Paths`: joining paths, `dirname`, ancestors, source roots and `relpath`.
- `Addresses`: target addresses and how they are written out.
- `Handler`: the handler field and its resolution.
- `Inference`: choosing the handler's dependency.
- `Constraints`: interpreter constraints, their PEP 440 meaning, and
  narrowing them to one minor release.
- `Runtime`: the runtime field, the registry and platform resolution.
- `Layout`: the output file name.
- `HandlerExamples`, `InferenceExamples`, `RuntimeExamples`: the test cases.

## Model

| member | source | states |
|---|---|---|
| Handler.NewHandlerField | src/python/pants/backend/python/util_rules/faas_test.py:81-84 | the field is accepted exactly when the value contains `:`; otherwise it is an invalid-format error carrying the address and the value |
| HandlerExamples.HandlerWithoutCallableRejected | src/python/pants/backend/python/util_rules/faas_test.py:81-84 | `path.to.lambda` and `lambda.py` are both rejected |
| Handler.Resolve | src/python/pants/backend/python/util_rules/faas_test.py:87-118 | a module form resolves to its own path and function with `file_name_used` false. For a file form: no glob match is exactly the unmatched-glob error on the joined path, more than one match is exactly the multiple-files error listing them, and a single match fails with the no-source-root error exactly when no root contains its directory; otherwise it resolves to the module of its path relative to the deepest root containing it. The function is always the text after `:` |
| Handler.ResolvedModuleNamesMatchedFile | src/python/pants/backend/python/util_rules/faas_test.py:87-108 | when the single match is `<root>/<base>.py`, resolution succeeds, and the resolved module, mapped back to a file under the same root, is that match |
| Handler.ModuleFromPath | src/python/pants/backend/python/util_rules/faas_test.py:103-108 | the module is the path without its extension, with every `/` turned into `.`, character for character |
| Handler.PathFromModuleFromPath | src/python/pants/backend/python/util_rules/faas_test.py:103-108 | file → module → file is the identity for a plain `.py` file |
| Handler.ModuleFromPathFromModule | src/python/pants/backend/python/util_rules/faas_test.py:103-108 | module → file → module is the identity for a dotted module |
| Paths.SourceRootOf | src/python/pants/backend/python/util_rules/faas_test.py:87-108 | the root found contains the directory and is the deepest root that does; none is found only when no root contains it |
| Paths.RelativeTo | src/python/pants/backend/python/util_rules/faas_test.py:106-108 | the file is the root, `/`, and the result (or the file itself when the root is the build root) |
| Paths.RelativeToJoin | src/python/pants/backend/python/util_rules/faas_test.py:106-108 | a file placed under a root is, relative to that root, exactly what was placed |
| Paths.JoinPath | src/python/pants/backend/python/util_rules/faas_test.py:91-95 | an absolute path or the build root leaves the path alone; otherwise the result is the directory, `/`, and the path |
| Paths.StripExtension | src/python/pants/backend/python/util_rules/faas_test.py:103-108 | as Python's `splitext`: the result is a prefix of the path, and it is shorter exactly when the path has an extension dot (the last `.`, after the last `/`, with a character other than `.` before it in the same segment), in which case it stops just before that dot |
| Paths.Parent | src/python/pants/backend/python/util_rules/faas_test.py:220-230 | the parent is a proper prefix that ends just before the last `/` of the path (nothing after it contains `/`), or empty when the path has no `/` |
| Paths.AncestorIsParentsAncestor | src/python/pants/backend/python/util_rules/faas_test.py:220-230 | a proper ancestor of a path is an ancestor of its parent |
| HandlerExamples.ResolveModuleHandler | src/python/pants/backend/python/util_rules/faas_test.py:103-105 | `path.to.lambda:func` resolves to module `path.to.lambda`, function `func`, file name not used |
| HandlerExamples.ResolveFileHandler | src/python/pants/backend/python/util_rules/faas_test.py:106-108 | `lambda.py:func` in `src/python/project` under root `src/python` resolves to `project.lambda`, `func`, file name used |
| HandlerExamples.ResolveMissingFile | src/python/pants/backend/python/util_rules/faas_test.py:110-113 | `doesnt_exist.py:func` fails with the unmatched glob `src/python/project/doesnt_exist.py` |
| HandlerExamples.ResolveGlobMatchingTwoFiles | src/python/pants/backend/python/util_rules/faas_test.py:114-118 | `*.py:func` matching `f2.py` and `lambda.py` fails with the multiple-files error listing both |
| Inference.Decide | src/python/pants/backend/python/util_rules/faas_test.py:174-242 | a dependency `a` is inferred exactly when `a` is the only distinct owner, or when there are several and `a` is the only one left after exclusions and the ancestor rule. A warning is given exactly when there are several owners and several remain; it names the target, the handler and the module, infers nothing, and lists every remaining owner's spec once, sorted |
| Inference.InferenceNeverGuesses | src/python/pants/backend/python/util_rules/faas_test.py:196-242 | when a dependency is inferred, every other owner was excluded or failed the ancestor rule |
| Inference.Infer | src/python/pants/backend/python/util_rules/faas_test.py:174-180 | with inference off nothing is inferred. With it on, a handler that fails to resolve fails inference with the same error, and a resolved handler gives exactly what `Decide` gives for its module's owners; any dependency inferred is an owner of that module |
| Inference.KeepEligible | src/python/pants/backend/python/util_rules/faas_test.py:211-230 | keeps exactly the owners that are not excluded (neither the owner nor its generator is named by a `!` entry) and, for a file-form handler, whose directory is the target's directory or one of its ancestors; no duplicates are introduced |
| Inference.Distinct | src/python/pants/backend/python/util_rules/faas_test.py:196-209 | the same owners, each once |
| Inference.SortedSpecsList | src/python/pants/backend/python/util_rules/faas_test.py:209 | the sorted list of specs has one entry per owner, and each entry is the spec of some owner |
| Inference.WarningMessage | src/python/pants/backend/python/util_rules/faas_test.py:199-209 | the warning text contains the sentence naming the target, handler and module, and the candidates as a Python list |
| Inference.ListReprPair | src/python/pants/backend/python/util_rules/faas_test.py:209 | two candidates are shown as `['a', 'b']` |
| Addresses.Address.Spec | src/python/pants/backend/python/util_rules/faas_test.py:203-209 | the whole text: a target without a file is its directory (`//` when that is the build root) followed by `:<name>` when it has a name; a file directly in the build root is `//<file>`, and a file directly in a named directory is `<dir>/<file>`, each followed by `:<name>` when named |
| Addresses.Address.Generator | src/python/pants/backend/python/util_rules/faas_test.py:144-154 | the generator of a file address has the same directory and name and no file |
| InferenceExamples.FirstPartyModuleInferred | src/python/pants/backend/python/util_rules/faas_test.py:182-185 | through `Infer`, `project.app:func` infers `project/app.py` |
| InferenceExamples.FileShorthandInferred | src/python/pants/backend/python/util_rules/faas_test.py:186-189 | through `Infer`, `app.py:func` resolves to `project.app` under the build-root source root and infers `project/app.py` |
| InferenceExamples.ThirdPartyModuleInferred | src/python/pants/backend/python/util_rules/faas_test.py:190-193 | through `Infer`, `colors:func` infers the `//:ansicolors` requirement |
| InferenceExamples.UnownedModuleNotInferred | src/python/pants/backend/python/util_rules/faas_test.py:194 | through `Infer`, a module nobody owns infers nothing and warns nothing |
| InferenceExamples.AmbiguousOwnersWarned | src/python/pants/backend/python/util_rules/faas_test.py:196-199 | through `Infer`, `ambiguous.py:func` resolves to `project.ambiguous`, whose two owners infer nothing and give a single warning listing `project/ambiguous.py:dep1` and `project/ambiguous.py:dep2` in order |
| InferenceExamples.AmbiguousWarningText | src/python/pants/backend/python/util_rules/faas_test.py:209 | that warning contains `['project/ambiguous.py:dep1', 'project/ambiguous.py:dep2']` |
| InferenceExamples.AmbiguousWarningTarget | src/python/pants/backend/python/util_rules/faas_test.py:200-208 | the warned target is written `project:ambiguous` |
| InferenceExamples.DecidePair | src/python/pants/backend/python/util_rules/faas_test.py:196-242 | with two distinct owners, both eligible gives a warning listing them sorted, one eligible infers it, none infers nothing |
| InferenceExamples.ExclusionDisambiguates | src/python/pants/backend/python/util_rules/faas_test.py:211-218 | through `Infer`, the same handler with `!` excluding `dep2` infers `dep1` with no warning |
| InferenceExamples.FileHandlerIgnoresOtherRoot | src/python/pants/backend/python/util_rules/faas_test.py:220-230 | through `Infer`, the file-form handler `ambiguous_in_another_root.py:func` drops the owner in `src/py/project` and infers the one in `project` |
| InferenceExamples.ModuleHandlerKeepsOtherRoot | src/python/pants/backend/python/util_rules/faas_test.py:231-242 | through `Infer`, the module form keeps both owners and warns, listing `project/ambiguous_in_another_root.py:ambiguous_in_another_root` before `src/py/project/ambiguous_in_another_root.py` |
| InferenceExamples.DisabledInfersNothing | src/python/pants/backend/python/util_rules/faas_test.py:244-246 | through `Infer` with inference off, `project.app:func` infers nothing |
| Strings.Sort | src/python/pants/backend/python/util_rules/faas_test.py:209 | the result is sorted by code point and is a permutation of the input |
| Strings.Split | src/python/pants/backend/python/util_rules/faas_test.py:263 | as `str.split(sep)`: at least one part, no part contains the separator, and the parts joined with the separator give the text back |
| Strings.SplitJoin | src/python/pants/backend/python/util_rules/faas_test.py:263 | splitting a join of separator-free parts gives the parts back |
| Strings.ParseInt | src/python/pants/backend/python/util_rules/faas_test.py:264 | as `int()` on sign and digits: parses exactly when the text is non-empty ASCII digits, optionally after one `-` or `+` followed by at least one digit; the value is the digits' number, negated after `-` |
| Strings.ParseIntToString | src/python/pants/backend/python/util_rules/faas_test.py:264 | `int()` reads back the decimal text of any integer |
| Runtime.ToInterpreterVersion | src/python/pants/backend/python/util_rules/faas_test.py:259-264 | no value gives no version; a value parses exactly when it is two integers around one `.`, giving that pair, and otherwise it is an invalid-value error naming the value |
| Runtime.VersionTextRoundTrip | src/python/pants/backend/python/util_rules/faas_test.py:259-264 | `<major>.<minor>` reads back as `(major, minor)` |
| Runtime.FromInterpreterVersion | src/python/pants/backend/python/util_rules/faas_test.py:266-268 | the text starts with `test:` |
| Runtime.InterpreterVersionRoundTrip | src/python/pants/backend/python/util_rules/faas_test.py:259-268 | the text after `test:` reads back as the version it was made from |
| Runtime.FindKnownRuntime | src/python/pants/backend/python/util_rules/faas_test.py:249-257 | nothing is found exactly when no entry has the version and architecture; otherwise the first entry that has them is returned |
| Runtime.FindKnownRuntimeUnique | src/python/pants/backend/python/util_rules/faas_test.py:249-257 | in a registry with unique keys, looking up an entry's own key finds that entry |
| Runtime.TestKnownRuntimesUnique | src/python/pants/backend/python/util_rules/faas_test.py:249-257 | the test registry's keys are unique |
| Runtime.CompletePlatformFile | src/python/pants/backend/python/util_rules/faas_test.py:274-277 | the file is `complete_platform_`, the runtime's tag, then `.json` |
| Runtime.ResolvePlatforms | src/python/pants/backend/python/util_rules/faas_test.py:271-448 | the override wins unchanged with no version. Otherwise a declared runtime is used (its parse error passed through, and a miss reported as an unknown specified version). Otherwise narrowed constraints are used (a miss is reported as an unknown inferred version) or, when they do not narrow, the uninferable error naming the target, the address and the constraints. A version found comes with the complete-platform file of the registry entry for the requested architecture |
| Runtime.OverrideIgnoresRuntimeAndArchitecture | src/python/pants/backend/python/util_rules/faas_test.py:324-339 | with the same override, the runtime, architecture and constraints make no difference and no version is reported |
| Runtime.InferredVersionCoversConstraints | src/python/pants/backend/python/util_rules/faas_test.py:342-383 | a version inferred from constraints is the one minor release whose every patch the constraints allow, and nothing else |
| Runtime.UnknownRuntimeMessage | src/python/pants/backend/python/util_rules/faas_test.py:317-321 | the text starts with "Could not find a known runtime for the specified/inferred Python version" and shows the key looked up |
| Runtime.UninferableMessage | src/python/pants/backend/python/util_rules/faas_test.py:442-448 | the text starts with "The '<name>' target <address> cannot have its runtime platform inferred" and shows every requirement as written |
| Runtime.Framed | src/python/pants/backend/python/util_rules/faas_test.py:442-448 | constraints shown between other texts keep the leading phrase and every requirement visible |
| Constraints.NarrowRequirement | src/python/pants/backend/python/util_rules/faas_test.py:342-355 | a requirement narrows to `(M, m)` only when it is `==M.m.*`, or the two specifiers `>=M.m` and `<M.(m+1)` in some order |
| Constraints.NarrowRequirementComplete | src/python/pants/backend/python/util_rules/faas_test.py:342-355 | both shapes narrow, the range in either order |
| Constraints.Narrow | src/python/pants/backend/python/util_rules/faas_test.py:342-355 | only a single requirement narrows, and then it narrows to exactly the range that requirement reads as |
| Constraints.NarrowSound | src/python/pants/backend/python/util_rules/faas_test.py:342-383 | narrowed constraints allow a release exactly when it has the narrowed major and minor |
| Constraints.ExactPinNotNarrowed | src/python/pants/backend/python/util_rules/faas_test.py:415-416 | `==X.Y.Z` is not narrowed: it allows `X.Y.Z` but not `X.Y.(Z+1)` |
| Constraints.OpenRangeNotNarrowed | src/python/pants/backend/python/util_rules/faas_test.py:417-418 | `>=X.Y` is not narrowed: it allows both `X.Y` and `X.(Y+1)` |
| Constraints.WideRangeNotNarrowed | src/python/pants/backend/python/util_rules/faas_test.py:417-419 | a range of two or more minor releases, in either order, is not narrowed: it allows two different minor releases |
| Constraints.ConstraintsTextShowsEach | src/python/pants/backend/python/util_rules/faas_test.py:448 | the text of the constraints contains each requirement as written |
| RuntimeExamples.Declared345 | src/python/pants/backend/python/util_rules/faas_test.py:271-301 | runtime `3.45` gives `(3, 45)` and `complete_platform_faas-test-3-45.json` |
| RuntimeExamples.Declared6789 | src/python/pants/backend/python/util_rules/faas_test.py:271-301 | runtime `67.89` gives `(67, 89)` and `complete_platform_faas-test-67-89.json` |
| RuntimeExamples.DeclaredUnknown | src/python/pants/backend/python/util_rules/faas_test.py:304-321 | runtime `98.76` fails as an unknown specified version |
| RuntimeExamples.OverrideWins | src/python/pants/backend/python/util_rules/faas_test.py:324-339 | the override `path/cp.json` wins over an unparsable runtime and ARM64, with no version |
| RuntimeExamples.NarrowConstraintsInferred | src/python/pants/backend/python/util_rules/faas_test.py:342-383 | `==3.45.*` and `>=3.45,<3.46` both give `(3, 45)` and `complete_platform_faas-test-3-45.json` |
| RuntimeExamples.NarrowConstraintsUnknown | src/python/pants/backend/python/util_rules/faas_test.py:386-409 | `==3.33.*` fails as an unknown inferred version |
| RuntimeExamples.WideConstraintsRefused | src/python/pants/backend/python/util_rules/faas_test.py:412-443 | `==3.45.67`, `>=3.45` and `<3.47,>=3.45` each fail as uninferable for `example_target` at `path:target` |
| RuntimeExamples.ExampleTargetNamed | src/python/pants/backend/python/util_rules/faas_test.py:444-447 | the uninferable report starts "The 'example_target' target path:target cannot have its runtime platform inferred" |
| RuntimeExamples.WideRangeShown | src/python/pants/backend/python/util_rules/faas_test.py:448 | the report for `<3.47,>=3.45` contains `<3.47,>=3.45` |
| RuntimeExamples.ExactPinText | src/python/pants/backend/python/util_rules/faas_test.py:416 | `==3.45.67` is written back as itself |
| RuntimeExamples.OpenRangeText | src/python/pants/backend/python/util_rules/faas_test.py:418 | `>=3.45` is written back as itself |
| RuntimeExamples.WideRangeText | src/python/pants/backend/python/util_rules/faas_test.py:419 | `<3.47,>=3.45` is written back as itself |
| Layout.OutputFileName | src/python/pants/backend/python/util_rules/faas_test.py:512-568 | `FLAT_ZIPPED` gives the name followed by `.zip`; the other layouts give the name unchanged |
| Layout.OutputFileNameInjective | src/python/pants/backend/python/util_rules/faas_test.py:512-568 | under any one layout, different names give different file names |
| Layout.OutputNames | src/python/pants/backend/python/util_rules/faas_test.py:515-516 | `x` gives `x.zip` under `FLAT_ZIPPED` and `x` under `FLAT` |

## Left out

- The production `faas.py`, `target.py` and the interpreter-constraints module are not part of this model. Behaviour follows the expectations of the test suite.
- The build graph is not modelled: reading BUILD files, expanding globs, mapping modules to owners and finding source roots are parameters, not computations.
- Resolving the `complete_platforms` override's addresses to files happens in the build graph. The request carries the files already.
- Inference.Decide: the case where an owner is already covered by an explicitly included dependency is not modelled. The ambiguity-resolution option (resolving by source root) is not modelled either.
- Addresses.Address.Spec: a file in a subdirectory of the target's directory, which Pants writes as `<dir>/<sub>/<file>:../<name>`, is not modelled; `Spec`'s contract states the text only for a file whose name holds no `/`, that is, a file directly in the target's directory (the only form the tests show).
- Constraints.RequirementText: the specifiers are shown in the order they are given. The `packaging` library prints them sorted; the tests' `<3.47,>=3.45` is already in that order.
- Addresses are directory, optional target name and optional file. Generated names and parameters are not modelled.
- Paths.RelativeTo: handler files are taken to lie under their source root. `..` segments and symbolic links are not interpreted.
- Strings.ParseInt: reads an optional sign and ASCII digits. The whitespace and `_` separators that Python's `int()` also accepts are not modelled.
- Constraints: only final releases and the operators `==`, `!=`, `>=`, `>`, `<=` and `<` are modelled. Pre-, post- and dev-releases, `~=`, `===`, interpreter names and environment markers are not.
- Handler.NewHandlerField: only the presence of `:` is checked, which is the only rejection the tests show.
- Inference.WarningMessage: the words around the context sentence and the candidate list (the opening `The target `, the sentence joining them, and the advice) are this model's own wording, not Pants' text. Only the context sentence and the list, the parts the tests check, are stated. The advice text is carried along but not stated. Its full sentence, as word-wrapped in the logs, is not stated either; the model states only that the text contains the candidate list and the context sentence.
- Runtime.ErrorMessage is only a dispatcher. Its contents are stated by `Runtime.UnknownRuntimeMessage` and `Runtime.UninferableMessage`.
- Logging is not modelled: the warning is returned as a value, not emitted.
- Building the package is not modelled: the Pex build, the venv creation and the pass-through of extra arguments to them.
- The `VENV` layout is treated like `FLAT` (no suffix). The tests give no expectation for it.
