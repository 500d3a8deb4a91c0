/** POSIX path handling, as Python's posixpath does it, for the two
    joins the admin script performs: the live configuration file under the
    instance base, and the source tree of a project under the source root. */
module Paths {

  predicate IsAbsolute(p: string) {
    |p| > 0 && p[0] == '/'
  }

  /** No separator anywhere in `p` (a single path component). */
  predicate NoSep(p: string) {
    forall k :: 0 <= k < |p| ==> p[k] != '/'
  }

  /** Every character of `p` is a separator. */
  predicate AllSep(p: string) {
    forall k :: 0 <= k < |p| ==> p[k] == '/'
  }

  /** posixpath.join(a, b): an absolute `b` replaces `a`; otherwise `b` is
      appended, with a separator unless `a` is empty or already ends in one. */
  function Join(a: string, b: string): string {
    if IsAbsolute(b) then b
    else if a == "" || a[|a| - 1] == '/' then a + b
    else a + "/" + b
  }

  /** `x` is `d` itself or lies in the tree below directory `d`. */
  predicate Within(x: string, d: string) {
    x == d ||
    (|d| < |x| && x[..|d|] == d && (x[|d|] == '/' || (d != "" && d[|d| - 1] == '/')))
  }

  /** `b` always ends the joined path; a relative `b` keeps `a` in front of
      it, and an absolute `b` discards `a` altogether. */
  lemma JoinShape(a: string, b: string)
    ensures var r := Join(a, b);
            |b| <= |r| && r[|r| - |b|..] == b &&
            (IsAbsolute(b) ==> r == b) &&
            (!IsAbsolute(b) ==> |a| <= |r| && r[..|a|] == a)
  {
  }

  /** Index of the last separator in `p`, or -1 when there is none
      (str.rfind). */
  function LastSep(p: string): (i: int)
    ensures -1 <= i < |p|
    ensures i >= 0 ==> p[i] == '/'
    ensures forall j :: i < j < |p| ==> p[j] != '/'
    decreases |p|
  {
    if p == [] then -1
    else if p[|p| - 1] == '/' then |p| - 1
    else LastSep(p[..|p| - 1])
  }

  /** `s` without its trailing separators (str.rstrip('/')). */
  function RStripSep(s: string): (r: string)
    ensures |r| <= |s| && r == s[..|r|]
    ensures r == "" || r[|r| - 1] != '/'
    ensures forall k :: |r| <= k < |s| ==> s[k] == '/'
    decreases |s|
  {
    if s != [] && s[|s| - 1] == '/' then RStripSep(s[..|s| - 1]) else s
  }

  /** posixpath.split(p): the text up to the last separator (trailing
      separators removed unless it is all separators) and the rest. */
  function Split(p: string): (string, string) {
    var i := LastSep(p) + 1;
    var head := p[..i];
    (if head != "" && !AllSep(head) then RStripSep(head) else head, p[i..])
  }

  /** get_config_file: `<base>/etc/configuration.xml`. */
  function ConfigFile(base: string): string {
    Join(Join(base, "etc"), "configuration.xml")
  }

  lemma RStripSepOfAppended(a: string, s: string)
    requires a == "" || a[|a| - 1] != '/'
    requires AllSep(s)
    ensures RStripSep(a + s) == a
    decreases |s|
  {
    if s != [] {
      assert (a + s)[..|a + s| - 1] == a + s[..|s| - 1];
      RStripSepOfAppended(a, s[..|s| - 1]);
    } else {
      assert a + s == a;
    }
  }

  /** The last separator is the one after which no separator follows. */
  lemma LastSepAt(p: string, i: int)
    requires 0 <= i < |p| && p[i] == '/'
    requires NoSep(p[i + 1..])
    ensures LastSep(p) == i
  {
  }

  lemma SplitAt(p: string, i: int)
    requires 0 <= i < |p| && p[i] == '/'
    requires NoSep(p[i + 1..])
    ensures Split(p) == (if !AllSep(p[..i + 1]) then RStripSep(p[..i + 1]) else p[..i + 1], p[i + 1..])
  {
    LastSepAt(p, i);
  }

  lemma JoinSplitEmpty(b: string)
    requires NoSep(b)
    ensures Split(Join("", b)) == ("", b)
  {
    assert Join("", b) == b;
    assert LastSep(b) == -1;
    assert b[..0] == "" && b[0..] == b;
  }

  lemma JoinSplitTrailing(a: string, b: string)
    requires a != "" && a[|a| - 1] == '/'
    requires NoSep(b)
    ensures Split(Join(a, b)) == (if AllSep(a) then a else RStripSep(a), b)
  {
    var p := a + b;
    assert Join(a, b) == p;
    assert p[..|a|] == a;
    assert p[|a|..] == b;
    SplitAt(p, |a| - 1);
  }

  lemma JoinSplitPlain(a: string, b: string)
    requires a != "" && a[|a| - 1] != '/'
    requires NoSep(b)
    ensures Split(Join(a, b)) == (a, b)
  {
    var p := a + "/" + b;
    assert Join(a, b) == p;
    assert p[..|a| + 1] == a + "/" && p[|a| + 1..] == b;
    SplitAt(p, |a|);
    assert (a + "/")[|a| - 1] != '/';
    RStripSepOfAppended(a, "/");
  }

  /** Splitting `Join(a, b)` for a single component `b` gives back `b` as
      the last component and `a` as its parent (without trailing
      separators, unless `a` is the root). So the path joined is the entry
      named `b` directly inside directory `a`. */
  lemma JoinSplit(a: string, b: string)
    requires NoSep(b)
    ensures Split(Join(a, b)) == (if a != "" && AllSep(a) then a else RStripSep(a), b)
  {
    if a == "" {
      JoinSplitEmpty(b);
    } else if a[|a| - 1] == '/' {
      JoinSplitTrailing(a, b);
    } else {
      JoinSplitPlain(a, b);
      assert !AllSep(a) by { assert a[|a| - 1] != '/'; }
    }
  }

  /** A file `f` inside directory `d` under `base` splits off as `f`,
      with `base/d` as its parent, and that parent splits off as `d`. */
  lemma JoinSplitNested(base: string, d: string, f: string)
    requires d != "" && NoSep(d) && NoSep(f)
    ensures Split(Join(Join(base, d), f)) == (Join(base, d), f)
    ensures Split(Join(base, d)).1 == d
  {
    var e := Join(base, d);
    JoinSplit(base, d);
    JoinShape(base, d);
    assert e[|e| - 1] == d[|d| - 1];
    JoinSplitPlain(e, f);
  }

  /** The live configuration file is `configuration.xml` in directory
      `etc`, and `etc` is a directory directly under the base. */
  lemma ConfigFileSplit(base: string)
    ensures Split(ConfigFile(base)) == (Join(base, "etc"), "configuration.xml")
    ensures Split(Join(base, "etc")).1 == "etc"
  {
    assert NoSep("etc");
    assert NoSep("configuration.xml");
    JoinSplitNested(base, "etc", "configuration.xml");
  }

  /** A relative, non-empty name joined to a non-empty directory lies in
      that directory's tree. */
  lemma JoinWithin(d: string, c: string)
    requires d != "" && c != "" && !IsAbsolute(c)
    ensures Within(Join(d, c), d)
  {
    var x := Join(d, c);
    if d[|d| - 1] == '/' {
      assert x == d + c && x[..|d|] == d;
    } else {
      assert x == d + "/" + c && x[..|d|] == d && x[|d|] == '/';
    }
  }

  /** The tree below a directory of a tree belongs to that tree. */
  lemma WithinTrans(x: string, y: string, d: string)
    requires Within(x, y) && Within(y, d)
    ensures Within(x, d)
  {
    if x != y && y != d {
      assert x[..|y|][..|d|] == x[..|d|];
      assert x[|d|] == x[..|y|][|d|];
    }
  }

  /** The live configuration lies in the tree of a non-empty instance base. */
  lemma ConfigFileWithinBase(base: string)
    requires base != ""
    ensures Within(ConfigFile(base), base)
  {
    JoinWithin(base, "etc");
    JoinShape(base, "etc");
    JoinWithin(Join(base, "etc"), "configuration.xml");
    WithinTrans(ConfigFile(base), Join(base, "etc"), base);
  }

  /** A project named by the absolute path of the instance base has the
      base itself as source directory, whatever the source root, and so the
      live configuration in its tree. */
  lemma AbsoluteNameTakesConfig(root: string, base: string)
    requires IsAbsolute(base)
    ensures Join(root, base) == base
    ensures Within(ConfigFile(base), Join(root, base))
  {
    ConfigFileWithinBase(base);
  }
}
