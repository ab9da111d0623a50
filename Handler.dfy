/** The `handler` field of a Python FaaS target and its resolution to a
    Python module and function.

    A handler is `<module>:<func>` (`path.to.lambda:func`) or
    `<file>.py:<func>` (`lambda.py:func`), the file being relative to the
    directory of the declaring target. The build graph is reached only through
    two parameters: the files a glob matches (in the order Pants returns them)
    and the set of source-root directories. */
module Handler {
  import opened Wrappers
  import opened Strings
  import opened Paths
  import opened Addresses

  datatype HandlerField = HandlerField(value: string, address: Address)

  datatype ResolvedHandler = ResolvedHandler(moduleName: string, func: string, fileNameUsed: bool)

  datatype HandlerError =
    | InvalidHandlerFormat(address: Address, value: string)
      // the field value has no `:` separating the callable
    | UnmatchedGlob(address: Address, glob: string)
      // the handler file does not exist
    | MultipleFilesMatched(address: Address, value: string, files: seq<string>)
      // the handler path is a glob that matched several files
    | NoSourceRoot(file: string)
      // the handler file lies under no source root

  /** Constructing the field validates it: the value must name a callable
      after a `:`; nothing else is checked before resolution. */
  function NewHandlerField(raw: string, address: Address): (r: Result<HandlerField, HandlerError>)
    ensures r.Success? <==> ':' in raw
    ensures r.Success? ==> r.value.value == raw && r.value.address == address
    ensures r.Failure? ==> r.error == InvalidHandlerFormat(address, raw)
  {
    if ':' in raw then Success(HandlerField(raw, address))
    else Failure(InvalidHandlerFormat(address, raw))
  }

  /** The path-or-module part of a handler value (before the first `:`). */
  function HandlerPath(value: string): string { Partition(value, ':').0 }

  /** The callable part of a handler value (after the first `:`). */
  function HandlerFunc(value: string): string { Partition(value, ':').1 }

  /** A handler names a file, rather than a module, exactly when its path part
      ends in `.py`. */
  predicate IsFileForm(value: string) { EndsWith(HandlerPath(value), ".py") }

  /** The dotted module of a path relative to its source root:
      extension dropped, `/` turned into `.`. */
  function ModuleFromPath(rel: string): (m: string)
    ensures '/' !in m
    ensures |m| == |StripExtension(rel)|
    ensures forall i :: 0 <= i < |m| ==> m[i] == (if rel[i] == '/' then '.' else rel[i])
  {
    ReplaceChar(StripExtension(rel), '/', '.')
  }

  /** The file, relative to its source root, that holds a dotted module. */
  function PathFromModule(m: string): string {
    ReplaceChar(m, '.', '/') + ".py"
  }

  /** Translating a plain `.py` file to its module and back gives the file. */
  lemma PathFromModuleFromPath(base: string)
    requires base != [] && '.' !in base && base[|base| - 1] != '/'
    ensures PathFromModule(ModuleFromPath(base + ".py")) == base + ".py"
  {
    var p := base + ".py";
    StripPySuffix(p);
    assert p[..|p| - 3] == base;
    ReplaceCharInverse(base, '/', '.');
  }

  /** Translating a dotted module to its file and back gives the module. */
  lemma ModuleFromPathFromModule(m: string)
    requires m != [] && '/' !in m && m[|m| - 1] != '.'
    ensures ModuleFromPath(PathFromModule(m)) == m
  {
    var base := ReplaceChar(m, '.', '/');
    var p := base + ".py";
    assert p[|p| - 4] == base[|base| - 1];
    StripPySuffix(p);
    assert p[..|p| - 3] == base;
    ReplaceCharInverse(m, '.', '/');
  }

  /** Resolves a handler to `(module, func, file_name_used)`.
      A module form is taken verbatim and consults nothing. A file form is
      globbed relative to the declaring directory: no match and several
      matches are distinct errors; the single match is stripped of its source
      root and turned into a dotted module. */
  function Resolve(field: HandlerField, glob: string -> seq<string>, roots: set<string>)
    : (r: Result<ResolvedHandler, HandlerError>)
    ensures r.Success? ==> r.value.func == HandlerFunc(field.value)
    ensures r.Success? ==> r.value.fileNameUsed == IsFileForm(field.value)
    ensures !IsFileForm(field.value) ==> r == Success(ResolvedHandler(HandlerPath(field.value), HandlerFunc(field.value), false))
    ensures IsFileForm(field.value) ==>
      var full := JoinPath(field.address.specPath, HandlerPath(field.value));
      && (|glob(full)| == 0 <==> r == Failure(UnmatchedGlob(field.address, full)))
      && (|glob(full)| > 1 <==> r == Failure(MultipleFilesMatched(field.address, field.value, glob(full))))
      && (|glob(full)| == 1 ==>
            match SourceRootOf(Parent(glob(full)[0]), roots)
            case None => r == Failure(NoSourceRoot(glob(full)[0]))
            case Some(root) => r.Success? && r.value.moduleName == ModuleFromPath(RelativeTo(glob(full)[0], root)))
  {
    var (path, func) := Partition(field.value, ':');
    if !EndsWith(path, ".py") then Success(ResolvedHandler(path, func, false))
    else
      var full := JoinPath(field.address.specPath, path);
      var files := glob(full);
      if |files| == 0 then Failure(UnmatchedGlob(field.address, full))
      else if |files| > 1 then Failure(MultipleFilesMatched(field.address, field.value, files))
      else
        var file := files[0];
        match SourceRootOf(Parent(file), roots)
        case None => Failure(NoSourceRoot(file))
        case Some(root) => Success(ResolvedHandler(ModuleFromPath(RelativeTo(file, root)), func, true))
  }

  /** A plain file `<base>.py` matched under source root `root` resolves to
      the module whose file, placed under that root, is the matched file
      again. */
  lemma ResolvedModuleNamesMatchedFile(field: HandlerField, glob: string -> seq<string>, roots: set<string>,
                                       root: string, base: string)
    requires IsFileForm(field.value)
    requires base != [] && base[0] != '/' && '.' !in base && base[|base| - 1] != '/'
    requires glob(JoinPath(field.address.specPath, HandlerPath(field.value))) == [JoinPath(root, base + ".py")]
    requires SourceRootOf(Parent(JoinPath(root, base + ".py")), roots) == Some(root)
    ensures Resolve(field, glob, roots).Success?
    ensures JoinPath(root, PathFromModule(Resolve(field, glob, roots).value.moduleName)) == JoinPath(root, base + ".py")
  {
    var file := JoinPath(root, base + ".py");
    assert (base + ".py")[0] == base[0];
    assert !StartsWith(base + ".py", "/");
    var rel := RelativeTo(file, root);
    assert rel == base + ".py";
    PathFromModuleFromPath(base);
  }
}
