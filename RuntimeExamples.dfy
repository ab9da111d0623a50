/** The runtime-platform cases of the FaaS tests, stated as lemmas about the
    model, with the test runtime field's registry (3.45 and 67.89, x86-64). */
module RuntimeExamples {
  import opened Wrappers
  import opened Strings
  import opened Addresses
  import opened Constraints
  import opened Runtime

  const PathTarget := Address("path", Some("target"), None)

  function Request(targetName: string, runtime: Option<string>, completePlatforms: Option<seq<string>>,
                   arch: Architecture): RuntimePlatformsRequest {
    RuntimePlatformsRequest(PathTarget, targetName, runtime, completePlatforms, arch)
  }

  /** The registry holds one x86-64 entry for 3.45, whose complete-platforms
      file is named after its tag. */
  lemma Registry345()
    ensures FindKnownRuntime(TestKnownRuntimes, 3, 45, X86_64) == Some(TestKnownRuntimes[0])
    ensures CompletePlatformFile(TestKnownRuntimes[0]) == "complete_platform_" + "faas-test-3-45.json"
  {
    TestKnownRuntimesUnique();
    FindKnownRuntimeUnique(TestKnownRuntimes, 0, X86_64);
    assert "faas-test-3-45" + ".json" == "faas-test-3-45.json";
  }

  /** Likewise the x86-64 entry for 67.89. */
  lemma Registry6789()
    ensures FindKnownRuntime(TestKnownRuntimes, 67, 89, X86_64) == Some(TestKnownRuntimes[1])
    ensures CompletePlatformFile(TestKnownRuntimes[1]) == "complete_platform_" + "faas-test-67-89.json"
  {
    TestKnownRuntimesUnique();
    FindKnownRuntimeUnique(TestKnownRuntimes, 1, X86_64);
    assert "faas-test-67-89" + ".json" == "faas-test-67-89.json";
  }

  // ---------------------------------------------------------------------------
  // A declared runtime
  // ---------------------------------------------------------------------------

  lemma Declared345()
    ensures ResolvePlatforms(Request("unused", Some("3.45"), None, X86_64), [], TestKnownRuntimes)
         == Success(RuntimePlatforms(Some((3, 45)), ["complete_platform_" + "faas-test-3-45.json"]))
  {
    VersionTextRoundTrip(3, 45);
    assert IntToString(3) + "." + IntToString(45) == "3.45";
    Registry345();
  }

  lemma Declared6789()
    ensures ResolvePlatforms(Request("unused", Some("67.89"), None, X86_64), [], TestKnownRuntimes)
         == Success(RuntimePlatforms(Some((67, 89)), ["complete_platform_" + "faas-test-67-89.json"]))
  {
    VersionTextRoundTrip(67, 89);
    assert IntToString(67) + "." + IntToString(89) == "67.89";
    Registry6789();
  }

  /** A declared version the registry does not know is reported as the
      specified version. */
  lemma DeclaredUnknown()
    ensures ResolvePlatforms(Request("unused", Some("98.76"), None, X86_64), [], TestKnownRuntimes)
         == Failure(UnknownRuntime(Specified, 98, 76, X86_64))
  {
    VersionTextRoundTrip(98, 76);
    assert IntToString(98) + "." + IntToString(76) == "98.76";
    assert FindKnownRuntime(TestKnownRuntimes, 98, 76, X86_64).None?;
  }

  /** Explicit complete platforms win over a runtime value that does not even
      parse, and over the architecture. */
  lemma OverrideWins()
    ensures ResolvePlatforms(Request("unused", Some("completely ignored!"), Some(["path/cp.json"]), ARM64), [],
                             TestKnownRuntimes)
         == Success(RuntimePlatforms(None, ["path/cp.json"]))
  {
  }

  // ---------------------------------------------------------------------------
  // A runtime inferred from the interpreter constraints
  // ---------------------------------------------------------------------------

  /** `==3.45.*` and `>=3.45,<3.46` both narrow to 3.45. */
  lemma NarrowConstraintsInferred()
    ensures ResolvePlatforms(Request("example_target", None, None, X86_64),
                             [[Specifier(Eq, Version(3, 45, AnyPatch))]], TestKnownRuntimes)
         == Success(RuntimePlatforms(Some((3, 45)), ["complete_platform_" + "faas-test-3-45.json"]))
    ensures ResolvePlatforms(Request("example_target", None, None, X86_64),
                             [[Specifier(Ge, Version(3, 45, NoPatch)), Specifier(Lt, Version(3, 46, NoPatch))]],
                             TestKnownRuntimes)
         == Success(RuntimePlatforms(Some((3, 45)), ["complete_platform_" + "faas-test-3-45.json"]))
  {
    NarrowRequirementComplete(3, 45);
    Registry345();
  }

  /** `==3.33.*` narrows, but to a version the registry does not know, which is
      reported as the inferred version. */
  lemma NarrowConstraintsUnknown()
    ensures ResolvePlatforms(Request("example_target", None, None, X86_64),
                             [[Specifier(Eq, Version(3, 33, AnyPatch))]], TestKnownRuntimes)
         == Failure(UnknownRuntime(Inferred, 3, 33, X86_64))
  {
    NarrowRequirementComplete(3, 33);
    assert FindKnownRuntime(TestKnownRuntimes, 3, 33, X86_64).None?;
  }

  /** An exact patch, an open lower bound and a two-minor range are refused;
      the report names the target and shows the constraint as written. */
  lemma WideConstraintsRefused()
    ensures var ics := [[Specifier(Eq, Version(3, 45, PatchNum(67)))]];
      ResolvePlatforms(Request("example_target", None, None, X86_64), ics, TestKnownRuntimes)
      == Failure(UninferableRuntime("example_target", PathTarget, ics))
    ensures var ics := [[Specifier(Ge, Version(3, 45, NoPatch))]];
      ResolvePlatforms(Request("example_target", None, None, X86_64), ics, TestKnownRuntimes)
      == Failure(UninferableRuntime("example_target", PathTarget, ics))
    ensures var ics := [[Specifier(Lt, Version(3, 47, NoPatch)), Specifier(Ge, Version(3, 45, NoPatch))]];
      ResolvePlatforms(Request("example_target", None, None, X86_64), ics, TestKnownRuntimes)
      == Failure(UninferableRuntime("example_target", PathTarget, ics))
  {
    ExactPinNotNarrowed(3, 45, 67);
    OpenRangeNotNarrowed(3, 45);
    WideRangeNotNarrowed(3, 45, 2, true);
  }

  lemma ExactPinText()
    ensures RequirementText([Specifier(Eq, Version(3, 45, PatchNum(67)))]) == "==3.45.67"
  {
    assert NatToString(45) == "45" && NatToString(67) == "67";
  }

  lemma OpenRangeText()
    ensures RequirementText([Specifier(Ge, Version(3, 45, NoPatch))]) == ">=3.45"
  {
    assert NatToString(45) == "45";
  }

  lemma WideRangeText()
    ensures RequirementText([Specifier(Lt, Version(3, 47, NoPatch)), Specifier(Ge, Version(3, 45, NoPatch))])
         == "<3.47,>=3.45"
  {
    var req := [Specifier(Lt, Version(3, 47, NoPatch)), Specifier(Ge, Version(3, 45, NoPatch))];
    assert req[1..] == [Specifier(Ge, Version(3, 45, NoPatch))];
    OpenRangeText();
    assert NatToString(47) == "47";
    assert VersionText(Version(3, 47, NoPatch)) == "3.47";
  }

  lemma PathTargetPhrase()
    ensures UninferablePhrase("example_target", PathTarget)
         == "The 'example_target' target " + "path:target" + " cannot have its runtime platform inferred"
  {
    assert PathTarget.Spec() == "path:target";
    assert "The '" + "example_target" + "' target " == "The 'example_target' target ";
  }

  /** The report on target `example_target` at `path:target` starts by
      naming it. */
  lemma ExampleTargetNamed(ics: InterpreterConstraints)
    ensures StartsWith(UninferableMessage("example_target", PathTarget, ics),
                       "The 'example_target' target " + "path:target" + " cannot have its runtime platform inferred")
  {
    PathTargetPhrase();
  }

  /** The report for `<3.47,>=3.45`, whichever target it is about, shows the
      constraint as written. */
  lemma WideRangeShown(targetName: string, address: Address)
    ensures var ics := [[Specifier(Lt, Version(3, 47, NoPatch)), Specifier(Ge, Version(3, 45, NoPatch))]];
      Occurs("<3.47,>=3.45", UninferableMessage(targetName, address, ics))
  {
    var req := [Specifier(Lt, Version(3, 47, NoPatch)), Specifier(Ge, Version(3, 45, NoPatch))];
    var text := UninferableMessage(targetName, address, [req]);
    assert [req][0] == req;
    assert Occurs(RequirementText(req), text);
    WideRangeText();
  }
}
