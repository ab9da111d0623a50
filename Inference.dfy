/** Inference of the dependency a Python FaaS target's `handler` implies.

    The owners of the handler's module (first-party files and third-party
    requirements exporting it) come from a build-graph parameter. One owner is
    inferred as it is. Several owners are ambiguous: the `!`/`!!` exclusions in
    the target's `dependencies` field, and, when the handler was given as a file
    name, the rule that the owner must live in the target's directory or above
    it, may narrow them to one. Otherwise nothing is inferred and, if several
    remain, one warning is returned listing them sorted. */
module Inference {
  import opened Wrappers
  import opened Strings
  import opened Paths
  import opened Addresses
  import opened Handler

  /** The parts of a FaaS target inference reads: its address, its `handler`
      field and the addresses its `dependencies` field excludes. */
  datatype FaaSTarget = FaaSTarget(address: Address, handler: HandlerField, ignores: set<Address>)

  /** The warning logged when ambiguity prevents inference: the target, the
      handler value, the module it maps to and the remaining candidates'
      address texts in ascending order. */
  datatype AmbiguityWarning = AmbiguityWarning(target: Address, handler: string, moduleName: string, candidates: seq<string>)

  /** The outcome of inference: at most one dependency, at most one warning. */
  datatype Inferred = Inferred(dependency: Option<Address>, warning: Option<AmbiguityWarning>)

  // ---------------------------------------------------------------------------
  // Candidate sets
  // ---------------------------------------------------------------------------

  ghost predicate NoDuplicates<T>(s: seq<T>) {
    forall i, j :: 0 <= i < j < |s| ==> s[i] != s[j]
  }

  /** The elements of `s`, each once (the owners become a `frozenset`). */
  function Distinct(s: seq<Address>): (r: seq<Address>)
    ensures forall x :: x in r <==> x in s
    ensures NoDuplicates(r)
  {
    if s == [] then []
    else
      var rest := Distinct(s[1..]);
      if s[0] in rest then rest else [s[0]] + rest
  }

  lemma {:induction false} DistinctCardinality<T>(s: seq<T>)
    requires NoDuplicates(s)
    ensures |set x | x in s| == |s|
    decreases |s|
  {
    if s != [] {
      DistinctCardinality(s[1..]);
      var tail := set x | x in s[1..];
      assert (set x | x in s) == {s[0]} + tail;
      assert s[0] !in tail;
    }
  }

  lemma SingletonSet<T>(S: set<T>, x: T)
    requires |S| == 1 && x in S
    ensures S == {x}
  {
    assert |S - {x}| == 0;
  }

  /** Whether the `dependencies` field excludes `a`: the address itself or the
      generator it was generated from is listed with `!`. */
  predicate Excluded(a: Address, ignores: set<Address>) {
    a in ignores || a.Generator() in ignores
  }

  /** Whether an ambiguous owner survives disambiguation for `target`. */
  predicate Eligible(a: Address, target: FaaSTarget, fileNameUsed: bool) {
    !Excluded(a, target.ignores) && (fileNameUsed ==> IsAncestorDir(a.specPath, target.address.specPath))
  }

  function KeepEligible(s: seq<Address>, target: FaaSTarget, fileNameUsed: bool): (r: seq<Address>)
    ensures forall a :: a in r <==> a in s && Eligible(a, target, fileNameUsed)
    ensures NoDuplicates(s) ==> NoDuplicates(r)
  {
    if s == [] then []
    else
      var rest := KeepEligible(s[1..], target, fileNameUsed);
      if Eligible(s[0], target, fileNameUsed) then [s[0]] + rest else rest
  }

  function Specs(s: seq<Address>): (r: seq<string>)
    ensures |r| == |s| && forall i :: 0 <= i < |s| ==> r[i] == s[i].Spec()
  {
    seq(|s|, i requires 0 <= i < |s| => s[i].Spec())
  }

  ghost function Candidates(owners: seq<Address>): set<Address> {
    set a | a in owners
  }

  ghost function EligibleCandidates(owners: seq<Address>, target: FaaSTarget, fileNameUsed: bool): set<Address> {
    set a | a in owners && Eligible(a, target, fileNameUsed)
  }

  // ---------------------------------------------------------------------------
  // The decision
  // ---------------------------------------------------------------------------

  /** Decides the inferred dependency from the owners of the handler's module.
      An address is inferred exactly when it is the only owner, or when there
      are several owners and it is the only eligible one; a warning is returned
      exactly when several owners remain eligible, and then nothing is
      inferred and the warning lists every eligible owner once, sorted. */
  function Decide(target: FaaSTarget, handler: ResolvedHandler, owners: seq<Address>): (r: Inferred)
    ensures forall a :: r.dependency == Some(a) <==>
      (Candidates(owners) == {a} ||
       (|Candidates(owners)| > 1 && EligibleCandidates(owners, target, handler.fileNameUsed) == {a}))
    ensures r.warning.Some? <==>
      |Candidates(owners)| > 1 && |EligibleCandidates(owners, target, handler.fileNameUsed)| > 1
    ensures r.warning.Some? ==> r.dependency.None?
    ensures r.warning.Some? ==>
      var w := r.warning.value;
      && w.target == target.address && w.handler == target.handler.value && w.moduleName == handler.moduleName
      && Sorted(w.candidates)
      && |w.candidates| == |EligibleCandidates(owners, target, handler.fileNameUsed)|
      && (forall a :: a in EligibleCandidates(owners, target, handler.fileNameUsed) ==> a.Spec() in w.candidates)
      && (forall s :: s in w.candidates ==>
            exists a :: a in EligibleCandidates(owners, target, handler.fileNameUsed) && a.Spec() == s)
  {
    var candidates := Distinct(owners);
    CandidatesCount(owners);
    if |candidates| == 0 then
      Inferred(None, None)
    else if |candidates| == 1 then
      SingletonSet(Candidates(owners), candidates[0]);
      Inferred(Some(candidates[0]), None)
    else
      var remaining := KeepEligible(candidates, target, handler.fileNameUsed);
      EligibleCount(owners, target, handler.fileNameUsed);
      if |remaining| == 1 then
        SingletonSet(EligibleCandidates(owners, target, handler.fileNameUsed), remaining[0]);
        Inferred(Some(remaining[0]), None)
      else if |remaining| == 0 then
        Inferred(None, None)
      else
        var sorted := Sort(Specs(remaining));
        SortedSpecsList(remaining);
        Inferred(None, Some(AmbiguityWarning(target.address, target.handler.value, handler.moduleName, sorted)))
  }

  lemma CandidatesCount(owners: seq<Address>)
    ensures (set a | a in Distinct(owners)) == Candidates(owners)
    ensures |Distinct(owners)| == |Candidates(owners)|
  {
    DistinctCardinality(Distinct(owners));
  }

  lemma EligibleCount(owners: seq<Address>, target: FaaSTarget, fileNameUsed: bool)
    ensures (set a | a in KeepEligible(Distinct(owners), target, fileNameUsed))
            == EligibleCandidates(owners, target, fileNameUsed)
    ensures |KeepEligible(Distinct(owners), target, fileNameUsed)| == |EligibleCandidates(owners, target, fileNameUsed)|
  {
    DistinctCardinality(KeepEligible(Distinct(owners), target, fileNameUsed));
  }

  /** The sorted address texts of a duplicate-free list name each address
      once. */
  lemma SortedSpecsList(remaining: seq<Address>)
    requires NoDuplicates(remaining)
    ensures |Sort(Specs(remaining))| == |set a | a in remaining|
    ensures forall a :: a in remaining ==> a.Spec() in Sort(Specs(remaining))
    ensures forall s :: s in Sort(Specs(remaining)) ==> exists a :: a in remaining && a.Spec() == s
  {
    var specs := Specs(remaining);
    var sorted := Sort(specs);
    DistinctCardinality(remaining);
    assert forall s :: s in sorted <==> s in specs by {
      forall s ensures s in sorted <==> s in specs {
        assert s in sorted <==> s in multiset(sorted);
        assert s in specs <==> s in multiset(specs);
      }
    }
    assert |sorted| == |multiset(sorted)| == |multiset(specs)| == |specs|;
    forall a | a in remaining ensures a.Spec() in sorted {
      var i :| 0 <= i < |remaining| && remaining[i] == a;
      assert specs[i] == a.Spec();
    }
    forall s | s in sorted ensures exists a :: a in remaining && a.Spec() == s {
      var i :| 0 <= i < |specs| && specs[i] == s;
      assert remaining[i] in remaining;
    }
  }

  /** Inference for one FaaS target. Switched off, it infers nothing and
      resolves nothing. Otherwise the handler is resolved (its errors are
      reported) and the owners of the resolved module are decided on. */
  function Infer(enabled: bool, target: FaaSTarget, glob: string -> seq<string>, roots: set<string>,
                 owners: string -> seq<Address>): (r: Result<Inferred, HandlerError>)
    ensures !enabled ==> r == Success(Inferred(None, None))
    ensures enabled ==> (r.Failure? <==> Resolve(target.handler, glob, roots).Failure?)
    ensures enabled && r.Failure? ==> r.error == Resolve(target.handler, glob, roots).error
    ensures r.Success? && r.value.dependency.Some? ==>
      enabled && r.value.dependency.value in owners(Resolve(target.handler, glob, roots).value.moduleName)
    ensures enabled && Resolve(target.handler, glob, roots).Success? ==>
      var h := Resolve(target.handler, glob, roots).value;
      r == Success(Decide(target, h, owners(h.moduleName)))
  {
    if !enabled then Success(Inferred(None, None))
    else
      var handler :- Resolve(target.handler, glob, roots);
      var r := Decide(target, handler, owners(handler.moduleName));
      assert r.dependency.Some? ==> r.dependency.value in Candidates(owners(handler.moduleName));
      Success(r)
  }

  /** Inference never picks among ambiguous owners: whatever it infers is the
      only owner, or the only owner left once exclusions (and, for a file
      handler, the ancestor rule) are applied. */
  lemma {:induction false} InferenceNeverGuesses(target: FaaSTarget, handler: ResolvedHandler,
                                                  owners: seq<Address>, a: Address, b: Address)
    requires Decide(target, handler, owners).dependency == Some(a)
    requires b in owners && b != a
    ensures !Eligible(b, target, handler.fileNameUsed)
  {
    var C := Candidates(owners);
    assert b in C;
    if C == {a} {
      assert false;
    } else {
      assert b !in EligibleCandidates(owners, target, handler.fileNameUsed);
    }
  }

  // ---------------------------------------------------------------------------
  // The warning's text
  // ---------------------------------------------------------------------------

  function QuotedList(xs: seq<string>): string {
    if xs == [] then ""
    else if |xs| == 1 then "'" + xs[0] + "'"
    else "'" + xs[0] + "', " + QuotedList(xs[1..])
  }

  /** Python's `repr` of a list of strings without quotes inside them. */
  function ListRepr(xs: seq<string>): string {
    "[" + QuotedList(xs) + "]"
  }

  /** A two-element list is shown as `['a', 'b']`. */
  lemma ListReprPair(a: string, b: string)
    ensures ListRepr([a, b]) == "['" + a + "', '" + b + "']"
  {
    assert [a, b][1..] == [b];
    assert QuotedList([a, b]) == "'" + a + "', " + ("'" + b + "'");
    assert "[" + "'" == "['";
    assert "', " + "'" == "', '";
    assert "'" + "]" == "']";
    calc {
      ListRepr([a, b]);
      "[" + ("'" + a + "', " + ("'" + b + "'")) + "]";
      ("[" + "'") + a + ("', " + "'") + b + ("'" + "]");
      "['" + a + "', '" + b + "']";
    }
  }

  /** The sentence naming the target, the handler and the module. */
  function WarningContext(w: AmbiguityWarning): string {
    w.target.Spec() + " has the field `handler='" + w.handler + "'`, which maps to the Python module `"
      + w.moduleName + "`"
  }

  /** The logged text: the context sentence, then the sorted candidates. */
  function WarningMessage(w: AmbiguityWarning): (text: string)
    ensures Occurs(WarningContext(w), text)
    ensures Occurs(ListRepr(w.candidates), text)
  {
    var text := WarningHead() + WarningContext(w) + WarningMiddle() + ListRepr(w.candidates) + WarningAdvice(w);
    OccursInFive(WarningHead(), WarningContext(w), WarningMiddle(), ListRepr(w.candidates), WarningAdvice(w));
    text
  }

  function WarningHead(): string { "The target " }

  function WarningMiddle(): string {
    ", but Pants cannot safely infer a dependency because more than one target owns this module, "
      + "so it is ambiguous which to use: "
  }

  function WarningAdvice(w: AmbiguityWarning): string {
    ".\n\nPlease explicitly include the dependency you want in the `dependencies` field of "
      + w.target.Spec() + ", or ignore the ones you do not want by prefixing with `!` or `!!` so that one "
      + "or no targets are left."
  }
}
