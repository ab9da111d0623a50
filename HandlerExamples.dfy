/** The handler cases of the FaaS tests, stated as lemmas about the model: a
    target in `src/python/project` whose directory holds `lambda.py` and
    `f2.py`, under the source root `src/python`. */
module HandlerExamples {
  import opened Wrappers
  import opened Strings
  import opened Paths
  import opened Addresses
  import opened Handler

  // ---------------------------------------------------------------------------
  // Handler validation and resolution
  // ---------------------------------------------------------------------------

  lemma HandlerWithoutCallableRejected()
    ensures NewHandlerField("path.to.lambda", Address("", Some("t"), None)).Failure?
    ensures NewHandlerField("lambda.py", Address("", Some("t"), None)).Failure?
  {
  }

  /** The files of the resolution test: `lambda.py` and `f2.py` in
      `src/python/project`, under the source root `src/python`. */
  function ProjectGlob(g: string): seq<string> {
    if g == "src/python/project/lambda.py" then ["src/python/project/lambda.py"]
    else if g == "src/python/project/*.py" then ["src/python/project/f2.py", "src/python/project/lambda.py"]
    else []
  }

  function ProjectField(value: string): HandlerField {
    HandlerField(value, Address("src/python/project", None, None))
  }

  lemma ResolveModuleHandler()
    ensures Resolve(ProjectField("path.to.lambda:func"), ProjectGlob, {"src/python"})
         == Success(ResolvedHandler("path.to.lambda", "func", false))
  {
    assert "path.to.lambda:func" == "path.to.lambda" + [':'] + "func";
    PartitionOf("path.to.lambda", ':', "func");
  }

  const LambdaFile := "src/python/project/lambda.py"

  lemma LambdaHandlerParts()
    ensures HandlerPath("lambda.py:func") == "lambda.py" && HandlerFunc("lambda.py:func") == "func"
    ensures IsFileForm("lambda.py:func")
  {
    assert "lambda.py:func" == "lambda.py" + [':'] + "func";
    PartitionOf("lambda.py", ':', "func");
  }

  lemma LambdaGlobbed()
    ensures JoinPath("src/python/project", "lambda.py") == LambdaFile
    ensures ProjectGlob(LambdaFile) == [LambdaFile]
  {
    // The file does not start with `/`, so it is joined to the directory.
    assert "lambda.py"[..1][0] == 'l';
  }

  lemma LambdaParent()
    ensures Parent(LambdaFile) == "src/python/project"
  {
    assert LambdaFile == "src/python/project" + "/" + "lambda.py";
    ParentOf("src/python/project", "lambda.py");
  }

  lemma LambdaSourceRoot()
    ensures SourceRootOf(Parent(LambdaFile), {"src/python"}) == Some("src/python")
  {
    LambdaParent();
    assert "src/python/project" == "src/python" + "/" + "project";
    ParentOf("src/python", "project");
    assert "src/python/project" !in {"src/python"};
  }

  lemma LambdaUnderRoot()
    ensures IsAncestorDir("src/python", Parent(LambdaFile))
  {
    LambdaParent();
    assert "src/python/project" == "src/python" + "/" + "project";
  }

  lemma LambdaRelative()
    ensures IsAncestorDir("src/python", Parent(LambdaFile))
    ensures RelativeTo(LambdaFile, "src/python") == "project/lambda.py"
  {
    LambdaUnderRoot();
    assert LambdaFile == "src/python" + "/" + "project/lambda.py";
    RelativeToJoin("src/python", "project/lambda.py");
  }

  lemma LambdaModule()
    ensures ModuleFromPath("project/lambda.py") == "project.lambda"
  {
    StripPySuffix("project/lambda.py");
    assert StripExtension("project/lambda.py") == "project/lambda";
    var m := ReplaceChar("project/lambda", '/', '.');
    assert forall i :: 0 <= i < 14 ==> m[i] == "project.lambda"[i];
  }

  /** The file `lambda.py` next to the target, under the source root
      `src/python`, is the module `project.lambda`. */
  lemma ResolveFileHandler()
    ensures Resolve(ProjectField("lambda.py:func"), ProjectGlob, {"src/python"})
         == Success(ResolvedHandler("project.lambda", "func", true))
  {
    LambdaHandlerParts();
    LambdaGlobbed();
    LambdaSourceRoot();
    LambdaRelative();
    LambdaModule();
  }

  lemma MissingFileJoined()
    ensures JoinPath("src/python/project", "doesnt_exist.py") == "src/python/project/doesnt_exist.py"
  {
    // The file does not start with `/`, so it is joined to the directory.
    assert "doesnt_exist.py"[..1][0] == 'd';
  }

  lemma MissingFileGlobbed()
    ensures ProjectGlob("src/python/project/doesnt_exist.py") == []
  {
    assert "src/python/project/doesnt_exist.py"[19] == 'd';
  }

  lemma MissingFileHandlerParts()
    ensures HandlerPath("doesnt_exist.py:func") == "doesnt_exist.py"
    ensures IsFileForm("doesnt_exist.py:func")
  {
    assert "doesnt_exist.py:func" == "doesnt_exist.py" + [':'] + "func";
    PartitionOf("doesnt_exist.py", ':', "func");
  }

  lemma ResolveMissingFile()
    ensures Resolve(ProjectField("doesnt_exist.py:func"), ProjectGlob, {"src/python"})
         == Failure(UnmatchedGlob(Address("src/python/project", None, None), "src/python/project/doesnt_exist.py"))
  {
    MissingFileHandlerParts();
    MissingFileJoined();
    MissingFileGlobbed();
  }

  lemma StarGlobbed()
    ensures JoinPath("src/python/project", "*.py") == "src/python/project/*.py"
    ensures ProjectGlob("src/python/project/*.py") == ["src/python/project/f2.py", "src/python/project/lambda.py"]
  {
    // The file does not start with `/`, so it is joined to the directory.
    assert "*.py"[..1][0] == '*';
    assert "src/python/project/*.py"[19] == '*';
  }

  lemma ResolveGlobMatchingTwoFiles()
    ensures Resolve(ProjectField("*.py:func"), ProjectGlob, {"src/python"})
         == Failure(MultipleFilesMatched(Address("src/python/project", None, None), "*.py:func",
                                         ["src/python/project/f2.py", "src/python/project/lambda.py"]))
  {
    assert "*.py:func" == "*.py" + [':'] + "func";
    PartitionOf("*.py", ':', "func");
    StarGlobbed();
  }
}
