/** The parts of Node's `path` module the pipeline relies on, for POSIX paths
    written as plain strings. */
module Paths {
  import opened Wrappers
  import opened Text

  type Path = string

  /** `path.join(dir, name)` for a directory and a relative name. */
  function Join(dir: Path, name: string): (p: Path)
    ensures |p| == |dir| + 1 + |name| && p[..|dir|] == dir
    ensures p[|dir|] == '/' && p[|dir| + 1..] == name
  {
    dir + "/" + name
  }

  /** `path.join(dir, segment)` for a normalised directory and one segment
      without separators: the segments "" and "." name `dir` itself and ".."
      names its parent, as `path.join` normalises them away. */
  function JoinSegment(dir: Path, segment: string): (p: Path)
    ensures segment != "" && segment != "." && segment != ".." ==> p == Join(dir, segment)
    ensures segment == "" || segment == "." ==> p == dir
    ensures segment == ".." ==> p == Dirname(dir)
  {
    if segment == "" || segment == "." then dir
    else if segment == ".." then Dirname(dir)
    else Join(dir, segment)
  }

  /** `path.basename(p)`: what follows the last separator. */
  function LastSegment(p: Path): (b: string)
    ensures '/' !in b
    ensures |b| <= |p| && p[|p| - |b|..] == b
    ensures |b| < |p| ==> p[|p| - |b| - 1] == '/'
  {
    match LastIndexOf(p, '/')
    case None => p
    case Some(i) => p[i + 1..]
  }

  /** `path.dirname(p)`: everything before the last separator, "." when
      there is none and "/" when it is the first character. */
  function Dirname(p: Path): (d: Path)
    ensures |d| > 0
    ensures '/' !in p ==> d == "."
    ensures '/' in p && d != "/" ==> StartsWith(p, d) && |d| < |p| && p[|d|] == '/' && '/' !in p[|d| + 1..]
    ensures d == "/" ==> |p| > 0 && p[0] == '/' && forall k :: 1 < k < |p| ==> p[k] != '/'
  {
    match LastIndexOf(p, '/')
    case None => "."
    case Some(i) => if i == 0 then "/" else p[..i]
  }

  /** `path.parse(p).name`: the last segment without its extension. The
      extension starts at the last dot of the segment, except that a dot in
      first position (".profile") and the segment ".." have no extension. */
  function Stem(p: Path): (name: string)
    ensures var b := LastSegment(p);
      && StartsWith(b, name)
      && (name != b ==> 0 < |name| && b[|name|] == '.' && '.' !in b[|name| + 1..])
  {
    var b := LastSegment(p);
    match LastIndexOf(b, '.')
    case None => b
    case Some(d) => if d == 0 || b == ".." then b else b[..d]
  }

  /** The path `p` is `dir` itself or lies below it. */
  predicate Within(p: Path, dir: Path) {
    p == dir || StartsWith(p, dir + "/")
  }

  lemma DirnameOfJoin(dir: Path, name: string)
    requires dir != [] && '/' !in name
    ensures Dirname(Join(dir, name)) == dir
  {
    var p := Join(dir, name);
    assert p[|dir| + 1..] == name;
  }

  /** A file name with one extension loses exactly that extension:
      `path.parse("demo.mp4").name` is "demo". */
  lemma StemOfExtendedName(name: string, ext: string)
    requires name != [] && name != "."
    requires '/' !in name && '/' !in ext && '.' !in ext
    ensures Stem(name + "." + ext) == name
  {
    var p := name + "." + ext;
    assert '/' !in p by {
      forall i | 0 <= i < |p| ensures p[i] != '/' {
        if i < |name| { assert p[i] == name[i]; }
        else if i > |name| { assert p[i] == ext[i - |name| - 1]; }
      }
    }
    assert LastSegment(p) == p;
    var k := LastIndexOf(p, '.');
    assert p[|name|] == '.';
    assert p[|name| + 1..] == ext;
    assert p[..|name|] == name;
    assert p != "..";
  }

  /** A segment without a dot is its own name: `path.parse("clip").name` is "clip". */
  lemma StemWithoutExtension(name: string)
    requires '/' !in name && '.' !in name
    ensures Stem(name) == name
  {
  }

  /** Different names in one directory are different paths. */
  lemma JoinInjective(dir: Path, x: string, y: string)
    requires Join(dir, x) == Join(dir, y)
    ensures x == y
  {
    assert x == Join(dir, x)[|dir| + 1..];
  }

  /** A path inside `root/name` spells `name` after the root and, if it goes
      on, continues with a separator. */
  lemma WithinSegment(p: Path, root: Path, name: string)
    requires Within(p, Join(root, name))
    ensures |p| >= |root| + 1 + |name| && p[|root| + 1..|root| + 1 + |name|] == name
    ensures |p| > |root| + 1 + |name| ==> p[|root| + 1 + |name|] == '/'
  {
    var d := Join(root, name);
    if p != d {
      assert p[..|d + "/"|] == d + "/";
      assert p[..|d|] == d;
    }
    assert p[..|d|] == d;
    assert d[|root| + 1..] == name;
  }

  /** Sibling directories with different names share no path. */
  lemma SiblingsDisjoint(root: Path, a: string, b: string, p: Path)
    requires '/' !in a && '/' !in b && a != b
    ensures !(Within(p, Join(root, a)) && Within(p, Join(root, b)))
  {
    if Within(p, Join(root, a)) && Within(p, Join(root, b)) {
      WithinSegment(p, root, a);
      WithinSegment(p, root, b);
    }
  }

  /** Whatever lies inside `root/name` lies inside `root`. */
  lemma WithinParent(p: Path, root: Path, name: string)
    requires Within(p, Join(root, name))
    ensures Within(p, root)
  {
    WithinSegment(p, root, name);
    assert p[..|root| + 1] == Join(root, name)[..|root| + 1];
  }
}
