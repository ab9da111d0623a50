/** Build-graph addresses: a directory (`spec_path`), an optional explicit
    target name and, for a file-level target generated from a `python_sources`
    generator, the file it owns relative to that directory. */
module Addresses {
  import opened Wrappers
  import opened Strings
  import opened Paths

  datatype Address = Address(specPath: string, targetName: Option<string>, relativeFile: Option<string>) {

    /** The generator an owned-file address was generated from (Pants'
        `maybe_convert_to_target_generator`); other addresses are their own. */
    function Generator(): (g: Address)
      ensures g.relativeFile.None?
      ensures g.specPath == specPath && g.targetName == targetName
      ensures relativeFile.None? ==> g == this
    {
      Address(specPath, targetName, None)
    }

    /** The canonical text of the address (`Address.spec`): `//` marks the
        build root, a file address shows its file, and `:name` appears when
        the target name was given explicitly. */
    function Spec(): (s: string)
      ensures specPath == "" ==> StartsWith(s, "//")
      ensures targetName.Some? && targetName.value != "" ==> EndsWith(s, ":" + targetName.value)
      ensures relativeFile.None? ==> s == (if specPath == "" then "//" else "") + specPath + NameText()
      ensures relativeFile.Some? && specPath == "" && '/' !in relativeFile.value ==>
        s == "//" + relativeFile.value + NameText()
      ensures relativeFile.Some? && specPath != "" && !StartsWith(relativeFile.value, "/")
              && '/' !in relativeFile.value ==>
        s == specPath + "/" + relativeFile.value + NameText()
    {
      var prefix := if specPath == "" then "//" else "";
      var path := if relativeFile.Some? then JoinPath(specPath, relativeFile.value) else specPath;
      var s := prefix + path + NameText();
      assert targetName.Some? && targetName.value != "" ==> s[|s| - |NameText()|..] == NameText();
      s
    }

    /** The `:name` part of the text, present when a name was given. */
    function NameText(): string {
      if targetName.Some? && targetName.value != "" then ":" + targetName.value else ""
    }
  }
}
