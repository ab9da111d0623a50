/** The dependency-inference cases of the FaaS tests, stated as lemmas about
    the model. The build has a `project` directory holding `app.py`,
    `ambiguous.py` (owned by two targets, `dep1` and `dep2`) and
    `ambiguous_in_another_root.py`, a second file of that name under the
    source root `src/py`, and a third-party requirement `ansicolors` at the
    build root providing the module `colors`. Every case goes through
    `Infer`: the handler is resolved, then its module's owners decided on. */
module InferenceExamples {
  import opened Wrappers
  import opened Strings
  import opened Paths
  import opened Addresses
  import opened Handler
  import opened Inference

  const App := Address("project", None, Some("app.py"))
  const Ansicolors := Address("", Some("ansicolors"), None)
  const Dep1 := Address("project", Some("dep1"), Some("ambiguous.py"))
  const Dep2 := Address("project", Some("dep2"), Some("ambiguous.py"))
  const OtherName := "ambiguous_in_another_root"
  const OtherFile := "ambiguous_in_another_root.py"
  const RootA := Address("project", Some(OtherName), Some(OtherFile))
  const RootB := Address("src/py/project", None, Some(OtherFile))

  /** The source roots of the build: the build root and `src/py`. */
  const Roots: set<string> := {"", "src/py"}

  /** The files of the `project` directory. */
  const Files: set<string> := {"project/app.py", "project/ambiguous.py", "project/" + OtherFile}

  function ProjectTarget(name: string): Address {
    Address("project", Some(name), None)
  }

  function Faas(name: string, handler: string, ignores: set<Address>): FaaSTarget {
    FaaSTarget(ProjectTarget(name), HandlerField(handler, ProjectTarget(name)), ignores)
  }

  /** The owners of each module in the build. */
  function Owners(m: string): seq<Address> {
    if m == "project.app" then [App]
    else if m == "colors" then [Ansicolors]
    else if m == "project.ambiguous" then [Dep1, Dep2]
    else if m == "project.ambiguous_in_another_root" then [RootA, RootB]
    else []
  }

  /** A glob of a plain file path matches that file when it exists. */
  function Glob(g: string): seq<string> {
    if g in Files then [g] else []
  }

  // ---------------------------------------------------------------------------
  // Resolving the handlers of the `project` targets
  // ---------------------------------------------------------------------------

  /** A module handler `<m>:func` is taken as written. */
  lemma ProjectModuleResolves(name: string, m: string, ignores: set<Address>)
    requires ':' !in m && !EndsWith(m, ".py")
    ensures Resolve(Faas(name, m + ":func", ignores).handler, Glob, Roots) == Success(ResolvedHandler(m, "func", false))
  {
    assert m + ":func" == m + [':'] + "func";
    PartitionOf(m, ':', "func");
  }

  /** `project` lies under the build-root source root only. */
  lemma ProjectDirRoot()
    ensures SourceRootOf("project", Roots) == Some("")
  {
    assert '/' !in "project";
    assert Parent("project") == "";
    assert "project" !in Roots;
  }

  /** The file `project/<base>.py` is the module `project.<base>`. */
  lemma ProjectFileModule(base: string)
    requires base != [] && '/' !in base && '.' !in base
    ensures ModuleFromPath("project/" + base + ".py") == "project." + base
  {
    var f := "project/" + base + ".py";
    assert f[|f| - 4] == base[|base| - 1];
    StripPySuffix(f);
    assert f[..|f| - 3] == "project/" + base;
    var m, expected := ModuleFromPath(f), "project." + base;
    assert "project/" == "project" + "/" && "project." == "project" + ".";
    forall i | 0 <= i < |m| ensures m[i] == expected[i] {
      if i < 7 {
        assert f[i] == "project"[i] && expected[i] == "project"[i];
      } else if i > 7 {
        assert f[i] == base[i - 8] && expected[i] == base[i - 8];
      }
    }
  }

  /** A file handler `<base>.py:func` of a target in `project` names the
      file next to it, which resolves to the module `project.<base>`. */
  lemma ProjectFileResolves(name: string, base: string, ignores: set<Address>, glob: string -> seq<string>)
    requires base != [] && base[0] != '/' && '/' !in base && '.' !in base && ':' !in base
    requires glob("project/" + base + ".py") == ["project/" + base + ".py"]
    ensures Resolve(Faas(name, base + ".py:func", ignores).handler, glob, Roots)
         == Success(ResolvedHandler("project." + base, "func", true))
  {
    var path := base + ".py";
    assert base + ".py:func" == path + [':'] + "func";
    PartitionOf(path, ':', "func");
    assert path[0] == base[0];
    var f := JoinPath("project", path);
    assert f == "project" + "/" + path;
    assert f == "project/" + base + ".py";
    ParentOf("project", path);
    ProjectDirRoot();
    ProjectFileModule(base);
  }

  /** With inference on, a resolved handler's owners are decided on. */
  lemma InferVia(target: FaaSTarget, h: ResolvedHandler, os: seq<Address>, d: Inferred)
    requires Resolve(target.handler, Glob, Roots) == Success(h)
    requires Owners(h.moduleName) == os && Decide(target, h, os) == d
    ensures Infer(true, target, Glob, Roots, Owners) == Success(d)
  {
  }

  // ---------------------------------------------------------------------------
  // One owner, or none
  // ---------------------------------------------------------------------------

  /** `Decide` on a single owner infers it. */
  lemma DecideSingle(target: FaaSTarget, handler: ResolvedHandler, a: Address)
    ensures Decide(target, handler, [a]) == Inferred(Some(a), None)
  {
    assert Distinct([a]) == [a] by { assert [a][1..] == []; }
  }

  /** Through `Infer`, a module handler `<m>:func` gives what `Decide` gives
      for the owners of `m`. */
  lemma ModuleHandlerInfers(name: string, m: string, os: seq<Address>, d: Inferred)
    requires ':' !in m && !EndsWith(m, ".py")
    requires Owners(m) == os && Decide(Faas(name, m + ":func", {}), ResolvedHandler(m, "func", false), os) == d
    ensures Infer(true, Faas(name, m + ":func", {}), Glob, Roots, Owners) == Success(d)
  {
    ProjectModuleResolves(name, m, {});
    InferVia(Faas(name, m + ":func", {}), ResolvedHandler(m, "func", false), os, d);
  }

  // Facts about the literal `project.app`, kept apart so the larger proofs need not unfold the literal.
  lemma AppModuleFacts()
    ensures ':' !in "project.app" && !EndsWith("project.app", ".py") && "project.app" + ":func" == "project.app:func"
    ensures Owners("project.app") == [App]
  {
    assert "project.app"[8] == 'a';
  }

  lemma FirstPartyModuleInferred()
    ensures Infer(true, Faas("first_party", "project.app:func", {}), Glob, Roots, Owners)
         == Success(Inferred(Some(App), None))
  {
    AppModuleFacts();
    DecideSingle(Faas("first_party", "project.app:func", {}), ResolvedHandler("project.app", "func", false), App);
    ModuleHandlerInfers("first_party", "project.app", [App], Inferred(Some(App), None));
  }

  // Facts about the literal `colors`, kept apart so the larger proofs need not unfold the literal.
  lemma ColorsFacts()
    ensures ':' !in "colors" && !EndsWith("colors", ".py") && "colors" + ":func" == "colors:func"
    ensures Owners("colors") == [Ansicolors]
  {
    assert "colors"[3] == 'o';
  }

  lemma ThirdPartyModuleInferred()
    ensures Infer(true, Faas("third_party", "colors:func", {}), Glob, Roots, Owners)
         == Success(Inferred(Some(Ansicolors), None))
  {
    ColorsFacts();
    DecideSingle(Faas("third_party", "colors:func", {}), ResolvedHandler("colors", "func", false), Ansicolors);
    ModuleHandlerInfers("third_party", "colors", [Ansicolors], Inferred(Some(Ansicolors), None));
  }

  /** `Decide` on no owner infers nothing and warns nothing. */
  lemma DecideNone(target: FaaSTarget, handler: ResolvedHandler)
    ensures Decide(target, handler, []) == Inferred(None, None)
  {
    assert Distinct([]) == [];
  }

  // Facts about the literal `who_knows.module`, kept apart so the larger proofs need not unfold the literal.
  lemma UnknownModuleFacts()
    ensures ':' !in "who_knows.module" && !EndsWith("who_knows.module", ".py")
    ensures "who_knows.module" + ":func" == "who_knows.module:func"
  {
    assert "who_knows.module"[13] == 'u';
  }

  // Facts about the owners of `who_knows.module`, kept apart so the larger proofs need not unfold the literal.
  lemma UnknownModuleOwners()
    ensures Owners("who_knows.module") == []
  {
    assert |"who_knows.module"| == 16;
  }

  lemma UnownedModuleNotInferred()
    ensures Infer(true, Faas("unrecognized", "who_knows.module:func", {}), Glob, Roots, Owners)
         == Success(Inferred(None, None))
  {
    UnknownModuleFacts();
    UnknownModuleOwners();
    DecideNone(Faas("unrecognized", "who_knows.module:func", {}), ResolvedHandler("who_knows.module", "func", false));
    ModuleHandlerInfers("unrecognized", "who_knows.module", [], Inferred(None, None));
  }

  /** `app.py:func` resolves to `project.app`, whatever the exclusions. */
  lemma AppShorthandResolved(ignores: set<Address>)
    ensures Resolve(Faas("first_party_shorthand", "app.py:func", ignores).handler, Glob, Roots)
         == Success(ResolvedHandler("project.app", "func", true))
  {
    AppBase();
    ProjectFileResolves("first_party_shorthand", "app", ignores, Glob);
  }

  // Facts about the base name `app`, kept apart so the larger proofs need not unfold the literal.
  lemma AppBase()
    ensures "app" != [] && "app"[0] != '/' && '/' !in "app" && '.' !in "app" && ':' !in "app"
    ensures Glob("project/" + "app" + ".py") == ["project/" + "app" + ".py"]
    ensures "app" + ".py:func" == "app.py:func" && "project." + "app" == "project.app"
  {
    assert "project/" + "app" + ".py" == "project/app.py";
  }

  /** The shorthand `app.py:func` is the file next to the target, which under
      the build-root source root is the module `project.app`, owned by one
      target. */
  lemma FileShorthandInferred()
    ensures Infer(true, Faas("first_party_shorthand", "app.py:func", {}), Glob, Roots, Owners)
         == Success(Inferred(Some(App), None))
  {
    AppShorthandResolved({});
    assert Owners("project.app") == [App];
    DecideSingle(Faas("first_party_shorthand", "app.py:func", {}), ResolvedHandler("project.app", "func", true), App);
  }

  /** With inference switched off nothing is inferred, even for a handler
      with a single owner. */
  lemma DisabledInfersNothing()
    ensures Infer(false, Faas("first_party", "project.app:func", {}), Glob, Roots, Owners)
         == Success(Inferred(None, None))
  {
  }

  // ---------------------------------------------------------------------------
  // Several owners
  // ---------------------------------------------------------------------------

  lemma SpecsPair(a: Address, b: Address)
    ensures Specs([a, b]) == [a.Spec(), b.Spec()]
  {
  }

  lemma DistinctPair(a: Address, b: Address)
    requires a != b
    ensures Distinct([a, b]) == [a, b]
  {
    assert [a, b][1..] == [b];
    assert Distinct([b]) == [b] by { assert [b][1..] == []; }
  }

  lemma KeepEligiblePair(a: Address, b: Address, target: FaaSTarget, fileNameUsed: bool)
    ensures KeepEligible([a, b], target, fileNameUsed)
         == (if Eligible(a, target, fileNameUsed) then [a] else [])
            + (if Eligible(b, target, fileNameUsed) then [b] else [])
  {
    assert [a, b][1..] == [b];
    assert KeepEligible([b], target, fileNameUsed) == (if Eligible(b, target, fileNameUsed) then [b] else []) by {
      assert [b][1..] == [];
    }
  }

  /** `Decide` on two different owners, spelled out. */
  lemma DecidePair(target: FaaSTarget, handler: ResolvedHandler, a: Address, b: Address)
    requires a != b
    ensures var f := handler.fileNameUsed;
      Decide(target, handler, [a, b])
      == if Eligible(a, target, f) && Eligible(b, target, f) then
           Inferred(None, Some(AmbiguityWarning(target.address, target.handler.value, handler.moduleName,
                                                Sort([a.Spec(), b.Spec()]))))
         else if Eligible(a, target, f) then Inferred(Some(a), None)
         else if Eligible(b, target, f) then Inferred(Some(b), None)
         else Inferred(None, None)
  {
    DistinctPair(a, b);
    KeepEligiblePair(a, b, target, handler.fileNameUsed);
    SpecsPair(a, b);
  }

  lemma DepsDiffer()
    ensures Dep1 != Dep2 && Dep1.Generator() != Dep2
  {
    assert "dep1"[3] != "dep2"[3];
  }

  lemma AmbiguousPath()
    ensures "project" + "/" + "ambiguous.py" == "project/ambiguous.py"
  {
    assert "project" + "/" == "project/";
  }

  lemma Dep1Spec()
    ensures Dep1.Spec() == "project/ambiguous.py:dep1"
  {
    assert "ambiguous.py"[0] == 'a';
    AmbiguousPath();
    assert ":" + "dep1" == ":dep1";
    assert "project/ambiguous.py" + ":dep1" == "project/ambiguous.py:dep1";
  }

  lemma Dep2Spec()
    ensures Dep2.Spec() == "project/ambiguous.py:dep2"
  {
    assert "ambiguous.py"[0] == 'a';
    AmbiguousPath();
    assert ":" + "dep2" == ":dep2";
    assert "project/ambiguous.py" + ":dep2" == "project/ambiguous.py:dep2";
  }

  lemma AmbiguousOrdered()
    ensures LessEq("project/ambiguous.py:dep1", "project/ambiguous.py:dep2")
  {
    LessEqCommonPrefix("project/ambiguous.py:dep", "1", "2");
    assert "project/ambiguous.py:dep" + "1" == "project/ambiguous.py:dep1";
    assert "project/ambiguous.py:dep" + "2" == "project/ambiguous.py:dep2";
  }

  lemma AmbiguousSorted()
    ensures Sort(["project/ambiguous.py:dep1", "project/ambiguous.py:dep2"])
         == ["project/ambiguous.py:dep1", "project/ambiguous.py:dep2"]
  {
    AmbiguousOrdered();
    SortSorted(["project/ambiguous.py:dep1", "project/ambiguous.py:dep2"]);
  }

  /** Two owners of `project.ambiguous` in the target's own directory: nothing
      is inferred and the warning lists both, sorted. */
  lemma AmbiguousDecided()
    ensures Decide(Faas("ambiguous", "ambiguous.py:func", {}), ResolvedHandler("project.ambiguous", "func", true),
                   [Dep1, Dep2])
         == Inferred(None, Some(AmbiguityWarning(ProjectTarget("ambiguous"), "ambiguous.py:func", "project.ambiguous",
                                                 ["project/ambiguous.py:dep1", "project/ambiguous.py:dep2"])))
  {
    var t := Faas("ambiguous", "ambiguous.py:func", {});
    DepsDiffer();
    DecidePair(t, ResolvedHandler("project.ambiguous", "func", true), Dep1, Dep2);
    assert Eligible(Dep1, t, true) && Eligible(Dep2, t, true);
    Dep1Spec();
    Dep2Spec();
    AmbiguousSorted();
  }

  /** The logged warning lists the candidates as a Python list. */
  lemma AmbiguousWarningText()
    ensures var w := AmbiguityWarning(ProjectTarget("ambiguous"), "ambiguous.py:func", "project.ambiguous",
                                      ["project/ambiguous.py:dep1", "project/ambiguous.py:dep2"]);
      Occurs("['" + "project/ambiguous.py:dep1" + "', '" + "project/ambiguous.py:dep2" + "']", WarningMessage(w))
  {
    ListReprPair("project/ambiguous.py:dep1", "project/ambiguous.py:dep2");
  }

  /** The warning is about the target `project:ambiguous`. */
  lemma AmbiguousWarningTarget()
    ensures ProjectTarget("ambiguous").Spec() == "project:ambiguous"
  {
    assert "project" + ":" + "ambiguous" == "project:ambiguous";
  }

  /** Excluding `dep2` with `!` leaves `dep1`, inferred without a warning. */
  lemma ExclusionDecided()
    ensures Decide(Faas("disambiguated", "ambiguous.py:func", {Dep2}),
                   ResolvedHandler("project.ambiguous", "func", true), [Dep1, Dep2])
         == Inferred(Some(Dep1), None)
  {
    DepsDiffer();
    DecidePair(Faas("disambiguated", "ambiguous.py:func", {Dep2}), ResolvedHandler("project.ambiguous", "func", true),
               Dep1, Dep2);
  }

  lemma RootsDiffer()
    ensures RootA != RootB && !IsAncestorDir(RootB.specPath, "project")
  {
    assert |RootA.specPath| != |RootB.specPath|;
  }

  /** A file handler rules out the owner in the other source root, which does
      not live in the target's directory or above it. */
  lemma OtherRootFileDecided()
    ensures Decide(Faas("another_root__file_used", OtherFile + ":func", {}),
                   ResolvedHandler("project.ambiguous_in_another_root", "func", true), [RootA, RootB])
         == Inferred(Some(RootA), None)
  {
    RootsDiffer();
    DecidePair(Faas("another_root__file_used", OtherFile + ":func", {}),
               ResolvedHandler("project.ambiguous_in_another_root", "func", true), RootA, RootB);
  }

  lemma OtherRootSpecs()
    ensures RootA.Spec() == "project/" + OtherFile + ":" + OtherName
    ensures RootB.Spec() == "src/py/project/" + OtherFile
  {
    assert OtherFile[0] == 'a';
    assert "project" + "/" == "project/";
    assert "src/py/project" + "/" == "src/py/project/";
  }

  lemma OtherRootSorted()
    ensures Sort(["project/" + OtherFile + ":" + OtherName, "src/py/project/" + OtherFile])
         == ["project/" + OtherFile + ":" + OtherName, "src/py/project/" + OtherFile]
  {
    assert LessEq("project/" + OtherFile + ":" + OtherName, "src/py/project/" + OtherFile);
    SortSorted(["project/" + OtherFile + ":" + OtherName, "src/py/project/" + OtherFile]);
  }

  /** A module handler keeps both owners: nothing is inferred and the warning
      lists both, sorted. */
  lemma OtherRootModuleDecided()
    ensures Decide(Faas("another_root__module_used", "project.ambiguous_in_another_root:func", {}),
                   ResolvedHandler("project.ambiguous_in_another_root", "func", false), [RootA, RootB])
         == Inferred(None, Some(AmbiguityWarning(ProjectTarget("another_root__module_used"),
                                                 "project.ambiguous_in_another_root:func",
                                                 "project.ambiguous_in_another_root",
                                                 ["project/" + OtherFile + ":" + OtherName,
                                                  "src/py/project/" + OtherFile])))
  {
    RootsDiffer();
    DecidePair(Faas("another_root__module_used", "project.ambiguous_in_another_root:func", {}),
               ResolvedHandler("project.ambiguous_in_another_root", "func", false), RootA, RootB);
    OtherRootSpecs();
    OtherRootSorted();
  }

  // ---------------------------------------------------------------------------
  // The several-owner cases, end to end
  // ---------------------------------------------------------------------------

  // Facts about the base name `ambiguous`, kept apart so the larger proofs need not unfold the literal.
  lemma AmbiguousBase()
    ensures "ambiguous" != [] && "ambiguous"[0] != '/' && '/' !in "ambiguous" && '.' !in "ambiguous"
    ensures ':' !in "ambiguous"
    ensures Glob("project/" + "ambiguous" + ".py") == ["project/" + "ambiguous" + ".py"]
    ensures "ambiguous" + ".py:func" == "ambiguous.py:func" && "project." + "ambiguous" == "project.ambiguous"
  {
    assert "project/" + "ambiguous" + ".py" == "project/ambiguous.py";
  }

  // Facts about the owners of `project.ambiguous`, kept apart so the larger proofs need not unfold the literal.
  lemma AmbiguousOwners()
    ensures Owners("project.ambiguous") == [Dep1, Dep2]
  {
  }

  /** `ambiguous.py:func` resolves to `project.ambiguous` for any target in
      `project`, whatever its exclusions. */
  lemma AmbiguousFileResolved(name: string, ignores: set<Address>)
    ensures Resolve(Faas(name, "ambiguous.py:func", ignores).handler, Glob, Roots)
         == Success(ResolvedHandler("project.ambiguous", "func", true))
  {
    AmbiguousBase();
    ProjectFileResolves(name, "ambiguous", ignores, Glob);
  }

  /** Two owners of `project.ambiguous` in the target's own directory: nothing
      is inferred and one warning lists both, sorted. */
  lemma AmbiguousOwnersWarned()
    ensures Infer(true, Faas("ambiguous", "ambiguous.py:func", {}), Glob, Roots, Owners)
         == Success(Inferred(None, Some(AmbiguityWarning(ProjectTarget("ambiguous"), "ambiguous.py:func",
                                                         "project.ambiguous",
                                                         ["project/ambiguous.py:dep1", "project/ambiguous.py:dep2"]))))
  {
    AmbiguousFileResolved("ambiguous", {});
    AmbiguousOwners();
    AmbiguousDecided();
    InferVia(Faas("ambiguous", "ambiguous.py:func", {}), ResolvedHandler("project.ambiguous", "func", true), [Dep1, Dep2],
             Inferred(None, Some(AmbiguityWarning(ProjectTarget("ambiguous"), "ambiguous.py:func", "project.ambiguous",
                                                  ["project/ambiguous.py:dep1", "project/ambiguous.py:dep2"]))));
  }

  /** Excluding `dep2` with `!` leaves `dep1`, inferred without a warning. */
  lemma ExclusionDisambiguates()
    ensures Infer(true, Faas("disambiguated", "ambiguous.py:func", {Dep2}), Glob, Roots, Owners)
         == Success(Inferred(Some(Dep1), None))
  {
    AmbiguousFileResolved("disambiguated", {Dep2});
    AmbiguousOwners();
    ExclusionDecided();
    InferVia(Faas("disambiguated", "ambiguous.py:func", {Dep2}), ResolvedHandler("project.ambiguous", "func", true),
             [Dep1, Dep2], Inferred(Some(Dep1), None));
  }

  // Facts about the base name `ambiguous_in_another_root`, kept apart so the larger proofs need not unfold the literal.
  lemma OtherBase()
    ensures OtherName != [] && OtherName[0] != '/' && '/' !in OtherName && '.' !in OtherName && ':' !in OtherName
  {
  }

  // Facts about the handler text of `ambiguous_in_another_root.py`, kept apart so the larger proofs need not unfold the literal.
  lemma OtherTexts()
    ensures OtherName + ".py:func" == OtherFile + ":func"
  {
    assert OtherName + ".py" == OtherFile;
  }

  // Facts about the module name `project.ambiguous_in_another_root`, kept apart so the larger proofs need not unfold the literal.
  lemma OtherModuleText()
    ensures "project." + OtherName == "project.ambiguous_in_another_root"
  {
  }

  // Facts about the glob of `project/ambiguous_in_another_root.py`, kept apart so the larger proofs need not unfold the literal.
  lemma OtherGlob()
    ensures Glob("project/" + OtherName + ".py") == ["project/" + OtherName + ".py"]
  {
    assert OtherName + ".py" == OtherFile;
    assert "project/" + OtherName + ".py" == "project/" + OtherFile;
  }

  // Facts about the owners of `project.ambiguous_in_another_root`, kept apart so the larger proofs need not unfold the literal.
  lemma OtherOwners()
    ensures Owners("project.ambiguous_in_another_root") == [RootA, RootB]
  {
  }

  /** The file handler `ambiguous_in_another_root.py:func` resolves, with the
      file name used, to the module `project.ambiguous_in_another_root`. */
  lemma OtherFileResolved(ignores: set<Address>)
    ensures Resolve(Faas("another_root__file_used", OtherFile + ":func", ignores).handler, Glob, Roots)
         == Success(ResolvedHandler("project.ambiguous_in_another_root", "func", true))
  {
    OtherBase();
    OtherTexts();
    OtherModuleText();
    OtherGlob();
    ProjectFileResolves("another_root__file_used", OtherName, ignores, Glob);
  }

  /** A file handler rules out the owner in the other source root, which does
      not live in the target's directory or above it. */
  lemma FileHandlerIgnoresOtherRoot()
    ensures Infer(true, Faas("another_root__file_used", OtherFile + ":func", {}), Glob, Roots, Owners)
         == Success(Inferred(Some(RootA), None))
  {
    OtherFileResolved({});
    OtherOwners();
    OtherRootFileDecided();
    InferVia(Faas("another_root__file_used", OtherFile + ":func", {}),
             ResolvedHandler("project.ambiguous_in_another_root", "func", true), [RootA, RootB], Inferred(Some(RootA), None));
  }

  lemma OtherModuleResolved(ignores: set<Address>)
    ensures Resolve(Faas("another_root__module_used", "project.ambiguous_in_another_root:func", ignores).handler,
                    Glob, Roots)
         == Success(ResolvedHandler("project.ambiguous_in_another_root", "func", false))
  {
    var m := "project.ambiguous_in_another_root";
    assert m + ":func" == "project.ambiguous_in_another_root:func";
    assert m[|m| - 3] == 'o';
    ProjectModuleResolves("another_root__module_used", m, ignores);
  }

  /** A module handler keeps both owners: nothing is inferred and the warning
      lists both, sorted. */
  lemma ModuleHandlerKeepsOtherRoot()
    ensures Infer(true, Faas("another_root__module_used", "project.ambiguous_in_another_root:func", {}),
                  Glob, Roots, Owners)
         == Success(Inferred(None, Some(AmbiguityWarning(ProjectTarget("another_root__module_used"),
                                                         "project.ambiguous_in_another_root:func",
                                                         "project.ambiguous_in_another_root",
                                                         ["project/" + OtherFile + ":" + OtherName,
                                                          "src/py/project/" + OtherFile]))))
  {
    OtherModuleResolved({});
    OtherOwners();
    OtherRootModuleDecided();
    InferVia(Faas("another_root__module_used", "project.ambiguous_in_another_root:func", {}),
             ResolvedHandler("project.ambiguous_in_another_root", "func", false), [RootA, RootB],
             Inferred(None, Some(AmbiguityWarning(ProjectTarget("another_root__module_used"),
                                                  "project.ambiguous_in_another_root:func",
                                                  "project.ambiguous_in_another_root",
                                                  ["project/" + OtherFile + ":" + OtherName,
                                                   "src/py/project/" + OtherFile]))));
  }
}
