/** The name of the packaged artifact, which depends on the layout of the
    virtual environment the FaaS package is built as. */
module Layout {
  import opened Strings

  /** The layouts of a built environment: a full venv, a flat directory, or
      a flat directory zipped into one archive. */
  datatype PexVenvLayout = Venv | Flat | FlatZipped

  /** The output file name for a target named `name`: the zipped layout gets
      a `.zip` suffix, the other layouts keep the name. */
  function OutputFileName(name: string, layout: PexVenvLayout): (f: string)
    ensures layout == FlatZipped ==> EndsWith(f, ".zip") && f[..|f| - 4] == name
    ensures layout != FlatZipped ==> f == name
  {
    if layout == FlatZipped then name + ".zip" else name
  }

  /** Different target names never share an output file name under the same
      layout. */
  lemma OutputFileNameInjective(a: string, b: string, layout: PexVenvLayout)
    requires OutputFileName(a, layout) == OutputFileName(b, layout)
    ensures a == b
  {
    if layout == FlatZipped {
      var f := OutputFileName(a, layout);
      assert a == f[..|f| - 4] == b;
    }
  }

  /** The artifact `x` is `x.zip` in the zipped flat layout and `x` in the
      flat layout. */
  lemma OutputNames()
    ensures OutputFileName("x", FlatZipped) == "x.zip"
    ensures OutputFileName("x", Flat) == "x"
  {
  }
}
