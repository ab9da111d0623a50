/** Relative POSIX paths inside the build root: `""` is the build root itself,
    components are separated by `/`, and there is no leading or trailing `/`.
    Holds the path arithmetic the handler resolution needs: joining, the
    parent directory, the ancestor test, extension stripping and the
    source-root lookup. */
module Paths {
  import opened Wrappers
  import opened Strings

  /** `os.path.join(dir, path)`: an absolute `path` replaces `dir`. */
  function JoinPath(dir: string, path: string): (r: string)
    ensures StartsWith(path, "/") || dir == "" ==> r == path
    ensures !StartsWith(path, "/") && dir != "" ==> StartsWith(r, dir + "/") && r[|dir| + 1..] == path
  {
    if StartsWith(path, "/") || dir == "" then path else dir + "/" + path
  }

  /** `os.path.dirname(p)` for a relative path: everything before the last
      `/`, or the build root when there is none. */
  function Parent(p: string): (d: string)
    ensures |d| < |p| || p == d == ""
    ensures d != "" ==> |d| < |p| && p[|d|] == '/' && p[..|d|] == d
    ensures d == "" ==> '/' !in p || p[0] == '/'
    ensures p != [] ==> '/' !in p[|d| + 1..]
  {
    var k := LastIndexOf(p, '/');
    if k < 0 then "" else p[..k]
  }

  /** The parent of `d/name` is `d` when `name` is a single component. */
  lemma ParentOf(d: string, name: string)
    requires '/' !in name
    ensures Parent(d + "/" + name) == d
  {
    LastIndexOfBefore(d, '/', name);
    assert d + "/" + name == d + ['/'] + name;
    assert (d + ['/'] + name)[..|d|] == d;
  }

  /** `a` names `d` itself or a directory above it (Python's
      `PurePath(d).relative_to(a)` succeeds); the build root is above
      everything. */
  predicate IsAncestorDir(a: string, d: string) {
    a == "" || a == d || (|a| < |d| && d[|a|] == '/' && d[..|a|] == a)
  }

  lemma AncestorOfParent(a: string, d: string)
    requires IsAncestorDir(a, Parent(d))
    ensures IsAncestorDir(a, d)
  {
    var p := Parent(d);
    if a != "" && a != p {
      assert d[..|a|] == p[..|a|];
    }
  }

  /** Walking one directory up loses only `d` itself from the ancestors. */
  lemma AncestorIsParentsAncestor(a: string, d: string)
    requires IsAncestorDir(a, d) && a != d
    ensures IsAncestorDir(a, Parent(d))
  {
    var k := LastIndexOf(d, '/');
    if a != "" {
      assert d[|a|] == '/';
      assert k >= |a|;
      if k > |a| {
        assert d[..k][..|a|] == d[..|a|];
      }
    }
  }

  /** The root part of `os.path.splitext(p)`: drops the text from the last
      `.` of the final component, unless that component is only dots before
      it (a hidden file such as `.bashrc` keeps its name). */
  function StripExtension(p: string): (r: string)
    ensures |r| <= |p| && p[..|r|] == r
    ensures r == p <==> forall k :: 0 <= k < |p| ==> !ExtensionDot(p, k)
    ensures r != p ==> ExtensionDot(p, |r|)
  {
    var sepIndex := LastIndexOf(p, '/');
    var dotIndex := LastIndexOf(p, '.');
    if dotIndex > sepIndex && exists i :: sepIndex < i < dotIndex && p[i] != '.' then
      LastDotIsExtensionDot(p);
      p[..dotIndex]
    else
      NoExtensionDot(p);
      p
  }

  /** `k` is the dot that starts the extension of `p`: the last `.`, lying in
      the final component, with a character other than `.` before it in that
      component. */
  ghost predicate ExtensionDot(p: string, k: int) {
    0 <= k < |p| && p[k] == '.' && '.' !in p[k + 1..] && '/' !in p[k + 1..]
    && exists i :: 0 <= i < k && p[i] != '.' && '/' !in p[i..k]
  }

  lemma LastDotIsExtensionDot(p: string)
    requires var sep, dot := LastIndexOf(p, '/'), LastIndexOf(p, '.');
      dot > sep && exists i :: sep < i < dot && p[i] != '.'
    ensures ExtensionDot(p, LastIndexOf(p, '.'))
  {
    var sep, dot := LastIndexOf(p, '/'), LastIndexOf(p, '.');
    var i :| sep < i < dot && p[i] != '.';
    NotInSlice(p, '/', i, dot);
    NotInSlice(p, '.', dot + 1, |p|);
    NotInSlice(p, '/', dot + 1, |p|);
  }

  /** An extension dot is the last `.` and has a non-dot character after the
      last `/` before it: the condition `StripExtension` tests. */
  lemma ExtensionDotIsLastDot(p: string, k: int)
    ensures ExtensionDot(p, k) ==>
      var sep, dot := LastIndexOf(p, '/'), LastIndexOf(p, '.');
      dot == k && sep < k && exists i :: sep < i < dot && p[i] != '.'
  {
    if ExtensionDot(p, k) {
      var sep, dot := LastIndexOf(p, '/'), LastIndexOf(p, '.');
      SliceMembers(p, k + 1, |p|);
      var i :| 0 <= i < k && p[i] != '.' && '/' !in p[i..k];
      SliceMembers(p, i, k);
      assert sep < i < dot && p[i] != '.';
    }
  }

  lemma NoExtensionDot(p: string)
    requires var sep, dot := LastIndexOf(p, '/'), LastIndexOf(p, '.');
      !(dot > sep && exists i :: sep < i < dot && p[i] != '.')
    ensures forall k :: 0 <= k < |p| ==> !ExtensionDot(p, k)
  {
    forall k | 0 <= k < |p| ensures !ExtensionDot(p, k) {
      ExtensionDotIsLastDot(p, k);
    }
  }

  lemma NotInSlice(s: string, c: char, a: int, b: int)
    requires 0 <= a <= b <= |s|
    requires forall j :: a <= j < b ==> s[j] != c
    ensures c !in s[a..b]
  {
    forall x | x in s[a..b] ensures x != c {
      var j :| 0 <= j < b - a && s[a..b][j] == x;
      assert s[a..b][j] == s[a + j];
    }
  }

  lemma SliceMembers(s: string, a: int, b: int)
    requires 0 <= a <= b <= |s|
    ensures forall j :: a <= j < b ==> s[j] in s[a..b]
  {
    forall j | a <= j < b ensures s[j] in s[a..b] {
      assert s[a..b][j - a] == s[j];
    }
  }

  /** A `.py` file whose name has a non-dot character before the suffix
      loses exactly the suffix. */
  lemma StripPySuffix(p: string)
    requires EndsWith(p, ".py") && |p| >= 4
    requires p[|p| - 4] != '/' && p[|p| - 4] != '.'
    ensures StripExtension(p) == p[..|p| - 3]
  {
    assert p[|p| - 3] == '.' && p[|p| - 2] == 'p' && p[|p| - 1] == 'y';
    var sepIndex := LastIndexOf(p, '/');
    var dotIndex := LastIndexOf(p, '.');
    assert dotIndex == |p| - 3;
    assert sepIndex < |p| - 4;
    assert sepIndex < |p| - 4 < dotIndex && p[|p| - 4] != '.';
  }

  /** The source root of a directory: the deepest directory among `d` and its
      ancestors that is a root, searching upward from `d`; `None` when no
      enclosing directory is a root (Pants reports `NoSourceRootError`). */
  function SourceRootOf(d: string, roots: set<string>): (r: Option<string>)
    ensures r.Some? ==> r.value in roots && IsAncestorDir(r.value, d)
    ensures r.Some? ==> forall a :: a in roots && IsAncestorDir(a, d) ==> IsAncestorDir(a, r.value)
    ensures r.None? ==> forall a :: a in roots ==> !IsAncestorDir(a, d)
    decreases |d|
  {
    if d in roots then Some(d)
    else if d == "" then None
    else
      var up := SourceRootOf(Parent(d), roots);
      assert up.Some? ==> IsAncestorDir(up.value, d) by {
        if up.Some? { AncestorOfParent(up.value, d); }
      }
      forall a | a in roots && IsAncestorDir(a, d)
        ensures IsAncestorDir(a, Parent(d))
      {
        AncestorIsParentsAncestor(a, d);
      }
      up
  }

  /** `os.path.relpath(f, root)` for a file below `root`. */
  function RelativeTo(f: string, root: string): (r: string)
    requires IsAncestorDir(root, Parent(f))
    ensures root == "" ==> r == f
    ensures root != "" ==> f == root + "/" + r
  {
    AncestorOfParent(root, f);
    if root == "" then f
    else
      assert root != f by {
        var p := Parent(f);
        assert |p| < |f| || p == f == "";
      }
      f[|root| + 1..]
  }

  /** A file placed under a root is, relative to that root, what was placed. */
  lemma RelativeToJoin(root: string, rel: string)
    requires root != "" && IsAncestorDir(root, Parent(root + "/" + rel))
    ensures RelativeTo(root + "/" + rel, root) == rel
  {
    var r := RelativeTo(root + "/" + rel, root);
    assert root + "/" + r == root + "/" + rel;
    assert r == (root + "/" + r)[|root| + 1..];
  }
}
