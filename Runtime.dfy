/** The runtime and platform a Python FaaS artifact is built for.

    In priority order: explicit complete platforms win and say nothing about
    the interpreter; otherwise a declared `runtime` is looked up in the
    registry of known runtimes for the requested architecture; otherwise the
    target's interpreter constraints must narrow to one minor release, which is
    then looked up the same way. A found runtime contributes the bundled
    complete-platform file named after its tag. */
module Runtime {
  import opened Wrappers
  import opened Strings
  import opened Addresses
  import opened Constraints

  datatype Architecture = X86_64 | ARM64

  /** A registry entry: the runtime's name, Python version, Docker image,
      platform tag and architecture. */
  datatype KnownRuntime = KnownRuntime(name: string, major: int, minor: int, dockerRepo: string, tag: string,
                                       architecture: Architecture)

  /** The registry of the runtime field used by the tests: two x86-64
      runtimes, 3.45 and 67.89. */
  const TestKnownRuntimes: seq<KnownRuntime> := [
    KnownRuntime("3.45", 3, 45, "", "faas-test-3-45", X86_64),
    KnownRuntime("67.89", 67, 89, "", "faas-test-67-89", X86_64)
  ]

  datatype VersionSource = Specified | Inferred

  datatype RuntimeError =
    | InvalidRuntimeValue(value: string)
      // the `runtime` value is not `<int>.<int>`
    | UnknownRuntime(source: VersionSource, major: int, minor: int, architecture: Architecture)
      // no registry entry for the version and architecture
    | UninferableRuntime(targetName: string, address: Address, constraints: InterpreterConstraints)
      // the interpreter constraints do not narrow to one minor release

  /** What runtime resolution reads from a FaaS target. `completePlatforms`
      holds the files of the `complete_platforms` field, already resolved from
      its addresses, or `None` when the field is unset. */
  datatype RuntimePlatformsRequest = RuntimePlatformsRequest(
    address: Address,
    targetName: string,
    runtime: Option<string>,
    completePlatforms: Option<seq<string>>,
    architecture: Architecture)

  datatype RuntimePlatforms = RuntimePlatforms(interpreterVersion: Option<(int, int)>, completePlatforms: seq<string>)

  // ---------------------------------------------------------------------------
  // The runtime field
  // ---------------------------------------------------------------------------

  /** The test runtime field's reading of its value: unset gives no version;
      otherwise the value must split on `.` into exactly two integers. */
  function ToInterpreterVersion(value: Option<string>): (r: Result<Option<(int, int)>, RuntimeError>)
    ensures value.None? <==> r == Success(None)
    ensures r.Failure? ==> r.error == InvalidRuntimeValue(value.value)
    ensures value.Some? ==>
      var parts := Split(value.value, '.');
      && (r.Success? <==> |parts| == 2 && ParseInt(parts[0]).Some? && ParseInt(parts[1]).Some?)
      && (r.Success? ==> r.value == Some((ParseInt(parts[0]).value, ParseInt(parts[1]).value)))
  {
    match value
    case None => Success(None)
    case Some(s) =>
      var parts := Split(s, '.');
      if |parts| != 2 then Failure(InvalidRuntimeValue(s))
      else
        match (ParseInt(parts[0]), ParseInt(parts[1]))
        case (Some(major), Some(minor)) => Success(Some((major, minor)))
        case _ => Failure(InvalidRuntimeValue(s))
  }

  /** The test runtime field's name for a Python version. */
  function FromInterpreterVersion(major: int, minor: int): (s: string)
    ensures StartsWith(s, "test:")
  {
    "test:" + IntToString(major) + "." + IntToString(minor)
  }

  /** `<major>.<minor>` reads back as the version it was written from. */
  lemma {:induction false} VersionTextRoundTrip(major: int, minor: int)
    ensures ToInterpreterVersion(Some(IntToString(major) + "." + IntToString(minor))) == Success(Some((major, minor)))
  {
    var a, b := IntToString(major), IntToString(minor);
    assert Join([a, b], '.') == a + "." + b;
    SplitJoin([a, b], '.');
    ParseIntToString(major);
    ParseIntToString(minor);
  }

  /** The version text after the `test:` prefix reads back as the version it
      was made from. */
  lemma InterpreterVersionRoundTrip(major: int, minor: int)
    ensures ToInterpreterVersion(Some(FromInterpreterVersion(major, minor)[5..])) == Success(Some((major, minor)))
  {
    assert FromInterpreterVersion(major, minor)[5..] == IntToString(major) + "." + IntToString(minor);
    VersionTextRoundTrip(major, minor);
  }

  // ---------------------------------------------------------------------------
  // The registry
  // ---------------------------------------------------------------------------

  predicate HasKey(rt: KnownRuntime, major: int, minor: int, arch: Architecture) {
    rt.major == major && rt.minor == minor && rt.architecture == arch
  }

  /** No two entries share a `(major, minor, architecture)` key. */
  ghost predicate UniqueKeys(known: seq<KnownRuntime>) {
    forall i, j :: 0 <= i < j < |known| ==>
      !HasKey(known[j], known[i].major, known[i].minor, known[i].architecture)
  }

  /** The first registry entry with the given key, if any. */
  function FindKnownRuntime(known: seq<KnownRuntime>, major: int, minor: int, arch: Architecture)
    : (r: Option<KnownRuntime>)
    ensures r.None? <==> forall i :: 0 <= i < |known| ==> !HasKey(known[i], major, minor, arch)
    ensures r.Some? ==> exists i :: 0 <= i < |known| && known[i] == r.value && HasKey(r.value, major, minor, arch)
                          && forall j :: 0 <= j < i ==> !HasKey(known[j], major, minor, arch)
  {
    if known == [] then None
    else if HasKey(known[0], major, minor, arch) then Some(known[0])
    else
      var r := FindKnownRuntime(known[1..], major, minor, arch);
      assert r.Some? ==> exists i :: 0 <= i < |known| && known[i] == r.value && HasKey(r.value, major, minor, arch)
                          && forall j :: 0 <= j < i ==> !HasKey(known[j], major, minor, arch) by {
        if r.Some? {
          var i :| 0 <= i < |known[1..]| && known[1..][i] == r.value && HasKey(r.value, major, minor, arch)
                   && forall j :: 0 <= j < i ==> !HasKey(known[1..][j], major, minor, arch);
          assert known[i + 1] == r.value;
          assert forall j :: 0 < j < i + 1 ==> known[j] == known[1..][j - 1];
        }
      }
      r
  }

  /** With unique keys, the lookup finds the one entry holding the key. */
  lemma FindKnownRuntimeUnique(known: seq<KnownRuntime>, k: nat, arch: Architecture)
    requires UniqueKeys(known) && k < |known| && known[k].architecture == arch
    ensures FindKnownRuntime(known, known[k].major, known[k].minor, arch) == Some(known[k])
  {
    var r := FindKnownRuntime(known, known[k].major, known[k].minor, arch);
    var i :| 0 <= i < |known| && known[i] == r.value && HasKey(r.value, known[k].major, known[k].minor, arch)
             && forall j :: 0 <= j < i ==> !HasKey(known[j], known[k].major, known[k].minor, arch);
    assert !(i < k) && !(k < i);
  }

  lemma TestKnownRuntimesUnique()
    ensures UniqueKeys(TestKnownRuntimes)
  {
  }

  /** The bundled complete-platform file of a registry entry. */
  function CompletePlatformFile(rt: KnownRuntime): (f: string)
    ensures StartsWith(f, "complete_platform_") && EndsWith(f, ".json")
    ensures |f| == |"complete_platform_"| + |rt.tag| + |".json"|
    ensures f[|"complete_platform_"|..|f| - |".json"|] == rt.tag
  {
    "complete_platform_" + rt.tag + ".json"
  }

  // ---------------------------------------------------------------------------
  // Resolution
  // ---------------------------------------------------------------------------

  /** Resolves a target's runtime platforms. `ics` are the target's interpreter
      constraints and `known` the registry. */
  function ResolvePlatforms(req: RuntimePlatformsRequest, ics: InterpreterConstraints, known: seq<KnownRuntime>)
    : (r: Result<RuntimePlatforms, RuntimeError>)
    // 1. an explicit override wins, whatever the runtime and architecture
    ensures req.completePlatforms.Some? ==> r == Success(RuntimePlatforms(None, req.completePlatforms.value))
    // 2. a declared runtime is used as declared, or its bad value reported
    ensures req.completePlatforms.None? && req.runtime.Some? ==>
      match ToInterpreterVersion(req.runtime)
      case Failure(e) => r == Failure(e)
      case Success(v) =>
        (r.Success? ==> r.value.interpreterVersion == v) &&
        (r.Failure? ==> r.error == UnknownRuntime(Specified, v.value.0, v.value.1, req.architecture))
    // 3. otherwise the constraints must narrow to one minor release
    ensures req.completePlatforms.None? && req.runtime.None? ==>
      match Narrow(ics)
      case None => r == Failure(UninferableRuntime(req.targetName, req.address, ics))
      case Some(v) =>
        (r.Success? ==> r.value.interpreterVersion == Some((v.0 as int, v.1 as int))) &&
        (r.Failure? ==> r.error == UnknownRuntime(Inferred, v.0, v.1, req.architecture))
    // a version found is looked up for the requested architecture
    ensures r.Success? && r.value.interpreterVersion.Some? ==>
      var (major, minor) := r.value.interpreterVersion.value;
      && FindKnownRuntime(known, major, minor, req.architecture).Some?
      && r.value.completePlatforms == [CompletePlatformFile(FindKnownRuntime(known, major, minor, req.architecture).value)]
    ensures r.Failure? && r.error.UnknownRuntime? ==>
      FindKnownRuntime(known, r.error.major, r.error.minor, req.architecture).None?
  {
    if req.completePlatforms.Some? then
      Success(RuntimePlatforms(None, req.completePlatforms.value))
    else
      var declared :- ToInterpreterVersion(req.runtime);
      var source := if declared.Some? then Specified else Inferred;
      var version :-
        if declared.Some? then Success(declared.value)
        else match Narrow(ics)
          case None => Failure(UninferableRuntime(req.targetName, req.address, ics))
          case Some(v) => Success((v.0 as int, v.1 as int));
      match FindKnownRuntime(known, version.0, version.1, req.architecture)
      case None => Failure(UnknownRuntime(source, version.0, version.1, req.architecture))
      case Some(rt) => Success(RuntimePlatforms(Some(version), [CompletePlatformFile(rt)]))
  }

  /** An override makes the runtime value and the architecture irrelevant,
      even a runtime value that does not parse. */
  lemma OverrideIgnoresRuntimeAndArchitecture(req1: RuntimePlatformsRequest, req2: RuntimePlatformsRequest,
                                              ics1: InterpreterConstraints, ics2: InterpreterConstraints,
                                              known: seq<KnownRuntime>)
    requires req1.completePlatforms.Some? && req1.completePlatforms == req2.completePlatforms
    ensures ResolvePlatforms(req1, ics1, known) == ResolvePlatforms(req2, ics2, known)
    ensures ResolvePlatforms(req1, ics1, known).value.interpreterVersion.None?
  {
  }

  /** A version inferred from the constraints is the one minor release they
      allow: every release the constraints admit is a patch of it. */
  lemma InferredVersionCoversConstraints(req: RuntimePlatformsRequest, ics: InterpreterConstraints,
                                         known: seq<KnownRuntime>, v: Release)
    requires req.completePlatforms.None? && req.runtime.None?
    requires ResolvePlatforms(req, ics, known).Success?
    ensures var (major, minor) := ResolvePlatforms(req, ics, known).value.interpreterVersion.value;
      AllowsAny(ics, v) <==> v.major == major && v.minor == minor
  {
    NarrowSound(ics, v);
  }

  // ---------------------------------------------------------------------------
  // Error texts
  // ---------------------------------------------------------------------------

  function ArchitectureText(a: Architecture): string {
    match a
    case X86_64 => "x86_64"
    case ARM64 => "arm64"
  }

  /** The phrase an unknown runtime is reported with; it says whether the
      version was specified or inferred. */
  function UnknownRuntimePhrase(source: VersionSource): string {
    "Could not find a known runtime for the " + (if source == Specified then "specified" else "inferred")
      + " Python version"
  }

  /** The phrase naming the target whose runtime could not be inferred. */
  function UninferablePhrase(targetName: string, address: Address): string {
    "The '" + targetName + "' target " + address.Spec() + " cannot have its runtime platform inferred"
  }

  /** The report of an unknown runtime: it says whether the version was
      specified or inferred and names the key looked up. */
  function UnknownRuntimeMessage(source: VersionSource, major: int, minor: int, arch: Architecture): (text: string)
    ensures StartsWith(text, UnknownRuntimePhrase(source))
    ensures Occurs(RuntimeKey(major, minor, arch), text)
  {
    var text := UnknownRuntimePhrase(source) + (": " + RuntimeKey(major, minor, arch) + ".");
    StartsWithConcat(UnknownRuntimePhrase(source), ": " + RuntimeKey(major, minor, arch) + ".");
    OccursInConcat(": ", RuntimeKey(major, minor, arch), ".");
    OccursInSuffix(RuntimeKey(major, minor, arch), ": " + RuntimeKey(major, minor, arch) + ".", UnknownRuntimePhrase(source));
    text
  }

  /** The registry key of a lookup, as the report shows it. */
  function RuntimeKey(major: int, minor: int, arch: Architecture): string {
    IntToString(major) + "." + IntToString(minor) + " (" + ArchitectureText(arch) + ")"
  }

  /** The report of an uninferable runtime: it names the target and shows its
      constraints as written. */
  function UninferableMessage(targetName: string, address: Address, ics: InterpreterConstraints): (text: string)
    ensures StartsWith(text, UninferablePhrase(targetName, address))
    ensures forall i :: 0 <= i < |ics| ==> Occurs(RequirementText(ics[i]), text)
  {
    var text := UninferablePhrase(targetName, address) + (UninferableReason() + ConstraintsText(ics) + UninferableAdvice());
    Framed(UninferablePhrase(targetName, address), UninferableReason(), ics, UninferableAdvice());
    text
  }

  /** Constraints shown between other texts keep every requirement visible. */
  lemma Framed(phrase: string, reason: string, ics: InterpreterConstraints, advice: string)
    ensures var text := phrase + (reason + ConstraintsText(ics) + advice);
      StartsWith(text, phrase) && forall i :: 0 <= i < |ics| ==> Occurs(RequirementText(ics[i]), text)
  {
    var shown := ConstraintsText(ics);
    StartsWithConcat(phrase, reason + shown + advice);
    forall i | 0 <= i < |ics| ensures Occurs(RequirementText(ics[i]), phrase + (reason + shown + advice)) {
      ConstraintsTextShowsEach(ics, i);
      OccursInMiddle(RequirementText(ics[i]), phrase, reason, shown, advice);
    }
  }

  lemma OccursInMiddle(t: string, a: string, b: string, shown: string, c: string)
    requires Occurs(t, shown)
    ensures Occurs(t, a + (b + shown + c))
  {
    OccursInSuffix(t, shown, b);
    OccursInPrefix(t, b + shown, c);
    OccursInSuffix(t, b + shown + c, a);
  }

  function UninferableReason(): string {
    ", because inference requires interpreter constraints"
      + " covering exactly one minor release of Python,"
      + " and the constraints are: "
  }

  function UninferableAdvice(): string {
    ". Set the `runtime` or `complete_platforms`"
      + " field instead."
  }

  /** The text an error is reported with. */
  function ErrorMessage(e: RuntimeError): string {
    match e
    case InvalidRuntimeValue(value) =>
      "The runtime value '" + value + "' is not a Python version of the form <major>.<minor>."
    case UnknownRuntime(source, major, minor, arch) => UnknownRuntimeMessage(source, major, minor, arch)
    case UninferableRuntime(targetName, address, ics) => UninferableMessage(targetName, address, ics)
  }
}
