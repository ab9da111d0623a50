/** Interpreter constraints, limited to the shapes runtime inference looks at,
    and the narrowing of a constraint set to a single `(major, minor)` Python
    release.

    A constraint set is a list of requirements, any of which may hold (an
    interpreter is allowed when it satisfies one of them); a requirement is a
    list of version specifiers, all of which must hold. Versions are
    `major.minor`, `major.minor.*` or `major.minor.patch`. Their meaning follows
    the "Version specifiers" section of PEP 440 restricted to final releases:
    `==X.Y.*` is a prefix match, a missing patch compares as `0`. */
module Constraints {
  import opened Wrappers
  import opened Strings

  datatype Op = Eq | NotEq | Ge | Gt | Le | Lt

  datatype Patch = NoPatch | AnyPatch | PatchNum(n: nat)

  datatype Version = Version(major: nat, minor: nat, patch: Patch)

  datatype Specifier = Specifier(op: Op, version: Version)

  type Requirement = seq<Specifier>

  type InterpreterConstraints = seq<Requirement>

  /** A concrete interpreter release `major.minor.micro`. */
  datatype Release = Release(major: nat, minor: nat, micro: nat)

  // ---------------------------------------------------------------------------
  // Meaning of a specifier (PEP 440, final releases only)
  // ---------------------------------------------------------------------------

  /** Lexicographic `<` on releases. */
  predicate Below(v: Release, w: Release) {
    v.major < w.major || (v.major == w.major && (v.minor < w.minor || (v.minor == w.minor && v.micro < w.micro)))
  }

  function Padded(v: Version): Release
    requires !v.patch.AnyPatch?
  {
    Release(v.major, v.minor, if v.patch.PatchNum? then v.patch.n else 0)
  }

  /** Whether release `v` satisfies one specifier. A `.*` suffix is a prefix
      match and is only meaningful with `==` and `!=`; with an ordered
      comparison it is not a valid specifier and allows nothing. */
  predicate Allows(s: Specifier, v: Release) {
    if s.version.patch.AnyPatch? then
      var prefix := v.major == s.version.major && v.minor == s.version.minor;
      match s.op
      case Eq => prefix
      case NotEq => !prefix
      case _ => false
    else
      var t := Padded(s.version);
      match s.op
      case Eq => v == t
      case NotEq => v != t
      case Ge => !Below(v, t)
      case Gt => Below(t, v)
      case Le => !Below(t, v)
      case Lt => Below(v, t)
  }

  predicate AllowsAll(req: Requirement, v: Release) {
    forall i :: 0 <= i < |req| ==> Allows(req[i], v)
  }

  predicate AllowsAny(ics: InterpreterConstraints, v: Release) {
    exists i :: 0 <= i < |ics| && AllowsAll(ics[i], v)
  }

  // ---------------------------------------------------------------------------
  // Narrowing
  // ---------------------------------------------------------------------------

  /** The `(major, minor)` a single requirement covers entirely, recognised
      syntactically: `==X.Y.*`, or the two specifiers `>=X.Y` and `<X.(Y+1)` in
      either order. Any other shape (an exact pin, an open or wider range, a
      third specifier) is not narrowed. */
  function NarrowRequirement(req: Requirement): (r: Option<(nat, nat)>)
    ensures r.Some? ==>
      req == [Specifier(Eq, Version(r.value.0, r.value.1, AnyPatch))] ||
      multiset(req) == multiset{Specifier(Ge, Version(r.value.0, r.value.1, NoPatch)),
                                Specifier(Lt, Version(r.value.0, r.value.1 + 1, NoPatch))}
  {
    if |req| == 1 then
      var s := req[0];
      if s.op == Eq && s.version.patch == AnyPatch then Some((s.version.major, s.version.minor)) else None
    else if |req| == 2 then
      var lo := if req[0].op == Ge then req[0] else req[1];
      var hi := if req[0].op == Ge then req[1] else req[0];
      if lo.op == Ge && hi.op == Lt && lo.version.patch == NoPatch && hi.version.patch == NoPatch
         && lo.version.major == hi.version.major && lo.version.minor + 1 == hi.version.minor
      then
        assert req == [req[0], req[1]];
        Some((lo.version.major, lo.version.minor))
      else None
    else None
  }

  /** Both recognised shapes are narrowed, the range in either order. */
  lemma NarrowRequirementComplete(major: nat, minor: nat)
    ensures NarrowRequirement([Specifier(Eq, Version(major, minor, AnyPatch))]) == Some((major, minor))
    ensures var ge := Specifier(Ge, Version(major, minor, NoPatch));
      var lt := Specifier(Lt, Version(major, minor + 1, NoPatch));
      NarrowRequirement([ge, lt]) == Some((major, minor)) && NarrowRequirement([lt, ge]) == Some((major, minor))
  {
  }

  /** The single minor release the constraints cover entirely, when there is
      exactly one requirement and it has a recognised shape. */
  function Narrow(ics: InterpreterConstraints): (r: Option<(nat, nat)>)
    ensures r.Some? ==> |ics| == 1
    ensures |ics| == 1 ==> r == NarrowRequirement(ics[0])
  {
    if |ics| == 1 then NarrowRequirement(ics[0]) else None
  }

  /** Soundness of narrowing: when it yields `(M, m)`, the constraints allow
      exactly the releases `M.m.*`, every patch of that minor release and
      nothing else. */
  lemma NarrowSound(ics: InterpreterConstraints, v: Release)
    requires Narrow(ics).Some?
    ensures AllowsAny(ics, v) <==> (v.major, v.minor) == Narrow(ics).value
  {
    var req := ics[0];
    var (M, m) := Narrow(ics).value;
    if |req| == 2 {
      var ge := Specifier(Ge, Version(M, m, NoPatch));
      var lt := Specifier(Lt, Version(M, m + 1, NoPatch));
      assert multiset(req) == multiset{ge, lt};
      assert (req[0] == ge && req[1] == lt) || (req[0] == lt && req[1] == ge) by {
        assert req[0] in multiset(req) && req[1] in multiset(req);
        assert req == [req[0], req[1]];
      }
      RangeCoversOneMinor(req, M, m, v);
    } else {
      StarCoversOneMinor(M, m, v);
    }
    assert AllowsAny(ics, v) <==> AllowsAll(req, v);
  }

  lemma StarCoversOneMinor(M: nat, m: nat, v: Release)
    ensures AllowsAll([Specifier(Eq, Version(M, m, AnyPatch))], v) <==> (v.major, v.minor) == (M, m)
  {
    var req := [Specifier(Eq, Version(M, m, AnyPatch))];
    assert AllowsAll(req, v) <==> Allows(req[0], v);
  }

  lemma RangeCoversOneMinor(req: Requirement, M: nat, m: nat, v: Release)
    requires var ge := Specifier(Ge, Version(M, m, NoPatch));
      var lt := Specifier(Lt, Version(M, m + 1, NoPatch));
      (|req| == 2 && req[0] == ge && req[1] == lt) || (|req| == 2 && req[0] == lt && req[1] == ge)
    ensures AllowsAll(req, v) <==> (v.major, v.minor) == (M, m)
  {
    assert AllowsAll(req, v) <==> Allows(req[0], v) && Allows(req[1], v);
  }

  /** An exact patch pin is refused: it does not cover the next patch of its
      own minor release. */
  lemma ExactPinNotNarrowed(major: nat, minor: nat, patch: nat)
    ensures var ics := [[Specifier(Eq, Version(major, minor, PatchNum(patch)))]];
      Narrow(ics).None? && AllowsAny(ics, Release(major, minor, patch))
      && !AllowsAny(ics, Release(major, minor, patch + 1))
  {
    var ics := [[Specifier(Eq, Version(major, minor, PatchNum(patch)))]];
    assert AllowsAll(ics[0], Release(major, minor, patch));
  }

  /** A lower bound alone is refused: it also allows the next minor release. */
  lemma OpenRangeNotNarrowed(major: nat, minor: nat)
    ensures var ics := [[Specifier(Ge, Version(major, minor, NoPatch))]];
      Narrow(ics).None? && AllowsAny(ics, Release(major, minor, 0))
      && AllowsAny(ics, Release(major, minor + 1, 0))
  {
    var ics := [[Specifier(Ge, Version(major, minor, NoPatch))]];
    assert AllowsAll(ics[0], Release(major, minor, 0));
    assert AllowsAll(ics[0], Release(major, minor + 1, 0));
  }

  /** A range over two or more minor releases is refused, in either order of
      its bounds: it allows two different minor releases. */
  lemma WideRangeNotNarrowed(major: nat, minor: nat, width: nat, upperFirst: bool)
    requires width >= 2
    ensures var ge := Specifier(Ge, Version(major, minor, NoPatch));
      var lt := Specifier(Lt, Version(major, minor + width, NoPatch));
      var ics := [if upperFirst then [lt, ge] else [ge, lt]];
      Narrow(ics).None? && AllowsAny(ics, Release(major, minor, 0))
      && AllowsAny(ics, Release(major, minor + 1, 0))
  {
    var ge := Specifier(Ge, Version(major, minor, NoPatch));
    var lt := Specifier(Lt, Version(major, minor + width, NoPatch));
    var req := if upperFirst then [lt, ge] else [ge, lt];
    WideRangeRefused(ge, lt, req);
    WideRangeAllows(ge, lt, req, Release(major, minor, 0));
    WideRangeAllows(ge, lt, req, Release(major, minor + 1, 0));
    assert [req][0] == req;
  }

  lemma WideRangeRefused(ge: Specifier, lt: Specifier, req: Requirement)
    requires ge.op == Ge && lt.op == Lt && ge.version.patch == NoPatch && lt.version.patch == NoPatch
    requires lt.version.major == ge.version.major && lt.version.minor >= ge.version.minor + 2
    requires req == [lt, ge] || req == [ge, lt]
    ensures NarrowRequirement(req).None?
  {
    assert |req| == 2;
  }

  lemma WideRangeAllows(ge: Specifier, lt: Specifier, req: Requirement, v: Release)
    requires Allows(ge, v) && Allows(lt, v)
    requires req == [lt, ge] || req == [ge, lt]
    ensures AllowsAll(req, v)
  {
  }


  // ---------------------------------------------------------------------------
  // Text of constraints, for error messages
  // ---------------------------------------------------------------------------

  function OpText(op: Op): string {
    match op
    case Eq => "=="
    case NotEq => "!="
    case Ge => ">="
    case Gt => ">"
    case Le => "<="
    case Lt => "<"
  }

  function VersionText(v: Version): string {
    NatToString(v.major) + "." + NatToString(v.minor)
      + (match v.patch
         case NoPatch => ""
         case AnyPatch => ".*"
         case PatchNum(n) => "." + NatToString(n))
  }

  /** A requirement as written in an `interpreter_constraints` entry, such as
      `<3.47,>=3.45`. */
  function RequirementText(req: Requirement): string {
    if req == [] then ""
    else if |req| == 1 then OpText(req[0].op) + VersionText(req[0].version)
    else OpText(req[0].op) + VersionText(req[0].version) + "," + RequirementText(req[1..])
  }

  /** The constraints as one text, requirements separated by `, `. */
  function ConstraintsText(ics: InterpreterConstraints): string {
    if ics == [] then ""
    else if |ics| == 1 then RequirementText(ics[0])
    else RequirementText(ics[0]) + ", " + ConstraintsText(ics[1..])
  }

  /** The text of the constraints shows every requirement as written. */
  lemma {:induction false} ConstraintsTextShowsEach(ics: InterpreterConstraints, i: nat)
    requires i < |ics|
    ensures Occurs(RequirementText(ics[i]), ConstraintsText(ics))
    decreases i
  {
    if |ics| == 1 {
      OccursFirst(RequirementText(ics[0]), []);
      assert RequirementText(ics[0]) + [] == ConstraintsText(ics);
    } else if i == 0 {
      OccursFirst(RequirementText(ics[0]), ", ");
      OccursInPrefix(RequirementText(ics[0]), RequirementText(ics[0]) + ", ", ConstraintsText(ics[1..]));
    } else {
      assert ics[1..][i - 1] == ics[i];
      ConstraintsTextShowsEach(ics[1..], i - 1);
      OccursInSuffix(RequirementText(ics[i]), ConstraintsText(ics[1..]), RequirementText(ics[0]) + ", ");
    }
  }
}
