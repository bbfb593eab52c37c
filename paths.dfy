/** Path helpers of packages/utils/src/path.ts, with the parts of Node's POSIX
 *  `path` module they rest on (`normalize`, `dirname`, `join`, `resolve`,
 *  `extname`) written out over `/`-separated segments. */
module Paths {
  import opened Strings

  // ---------------------------------------------------------------------
  // getPath / maybeNpmPath
  // ---------------------------------------------------------------------

  /** `getPath`: `replace(/\.wxml$/, ext)`. */
  function GetPath(wxmlAbsPath: string, ext: string): string
  {
    if EndsWith(wxmlAbsPath, ".wxml") then wxmlAbsPath[..|wxmlAbsPath| - 5] + ext else wxmlAbsPath
  }

  /** A trailing `.wxml` is swapped for the extension; a path without one is
   *  returned unchanged. */
  lemma GetPathSwapsExtension(base: string, ext: string, other: string)
    requires !EndsWith(other, ".wxml")
    ensures GetPath(base + ".wxml", ext) == base + ext
    ensures GetPath(other, ext) == other
  {
    var p := base + ".wxml";
    assert p[|p| - 5..] == ".wxml";
    assert p[..|p| - 5] == base;
  }

  /** `MAYBE_NPM_PATH = /^[@\w](?:[^:]|$)/`: a first character `@` or a word
   *  character, followed by the end of the text or by anything but `:`. */
  predicate MaybeNpmPattern(s: string)
  {
    |s| >= 1 && (s[0] == '@' || IsWordChar(s[0])) && (|s| == 1 || s[1] != ':')
  }

  /** The argument of `maybeNpmPath`: a string, or some other JavaScript value. */
  datatype PathArg = PathString(s: string) | NotAString

  /** `maybeNpmPath`: `typeof path === 'string'` and the pattern matches. */
  predicate MaybeNpmPath(arg: PathArg)
  {
    arg.PathString? && MaybeNpmPattern(arg.s)
  }

  /** Relative and absolute paths, drive-letter paths and non-strings are
   *  never taken for npm package paths; bare and scoped package names are. */
  lemma MaybeNpmPathCases(s: string)
    ensures StartsWith(s, "./") || StartsWith(s, "../") || StartsWith(s, "/") ==> !MaybeNpmPath(PathString(s))
    ensures |s| >= 2 && s[1] == ':' ==> !MaybeNpmPath(PathString(s))
    ensures !MaybeNpmPath(NotAString)
    ensures |s| >= 1 && s[0] == '@' && (|s| == 1 || s[1] != ':') ==> MaybeNpmPath(PathString(s))
  {
    if StartsWith(s, "./") || StartsWith(s, "../") || StartsWith(s, "/") {
      assert s[0] == '.' || s[0] == '/' by {
        if StartsWith(s, "./") { assert s[..2][0] == s[0]; }
        else if StartsWith(s, "../") { assert s[..3][0] == s[0]; }
        else { assert s[..1][0] == s[0]; }
      }
    }
  }

  // ---------------------------------------------------------------------
  // normalize
  // ---------------------------------------------------------------------

  /** One segment applied to the stack of kept segments: empty and `.`
   *  segments vanish, `..` removes the last kept name (or is kept when the
   *  path may climb above its start). */
  function PushSegment(acc: seq<string>, seg: string, allowAboveRoot: bool): seq<string>
  {
    if seg == "" || seg == "." then acc
    else if seg == ".." then
      if |acc| > 0 && acc[|acc| - 1] != ".." then acc[..|acc| - 1]
      else if allowAboveRoot then acc + [".."]
      else acc
    else acc + [seg]
  }

  function FoldSegments(acc: seq<string>, parts: seq<string>, allowAboveRoot: bool): seq<string>
    decreases |parts|
  {
    if parts == [] then acc
    else FoldSegments(PushSegment(acc, parts[0], allowAboveRoot), parts[1..], allowAboveRoot)
  }

  /** The text of a normalised path: a leading `/` when absolute, the kept
   *  segments, and a trailing `/` when the input had one. */
  function Render(absolute: bool, trailing: bool, segs: seq<string>): string
  {
    if segs == [] then (if absolute then "/" else if trailing then "./" else ".")
    else (if absolute then "/" else "") + Join(segs, "/") + (if trailing then "/" else "")
  }

  /** Node's POSIX `path.normalize`. */
  function Normalize(p: string): string
  {
    if p == [] then "."
    else
      var absolute := p[0] == '/';
      Render(absolute, p[|p| - 1] == '/', FoldSegments([], Split(p, '/'), !absolute))
  }

  /** The segment lists `normalize` produces: no empty, `.` or `/`-bearing
   *  segment, `..` only in a leading run, and none at all when absolute. */
  predicate Canonical(segs: seq<string>, allowAboveRoot: bool)
  {
    (forall i :: 0 <= i < |segs| ==> segs[i] != "" && segs[i] != "." && '/' !in segs[i])
    && (forall i, j :: 0 <= i < j < |segs| && segs[j] == ".." ==> segs[i] == "..")
    && (!allowAboveRoot ==> forall i :: 0 <= i < |segs| ==> segs[i] != "..")
  }

  lemma PushKeepsCanonical(acc: seq<string>, seg: string, allowAboveRoot: bool)
    requires Canonical(acc, allowAboveRoot) && '/' !in seg
    ensures Canonical(PushSegment(acc, seg, allowAboveRoot), allowAboveRoot)
  {
    var r := PushSegment(acc, seg, allowAboveRoot);
    if seg == "" || seg == "." {
    } else if seg == ".." {
      if |acc| > 0 && acc[|acc| - 1] != ".." {
        assert forall i :: 0 <= i < |r| ==> r[i] == acc[i];
      } else if allowAboveRoot {
        assert forall i :: 0 <= i < |acc| ==> acc[i] == ".." by {
          forall i | 0 <= i < |acc| ensures acc[i] == ".." {
            if i < |acc| - 1 { assert acc[|acc| - 1] == ".."; }
          }
        }
      }
    } else {
      assert r == acc + [seg];
      assert forall j :: 0 <= j < |r| && r[j] == ".." ==> j < |acc|;
    }
  }

  lemma {:induction false} FoldKeepsCanonical(acc: seq<string>, parts: seq<string>, allowAboveRoot: bool)
    requires Canonical(acc, allowAboveRoot)
    requires forall k :: 0 <= k < |parts| ==> '/' !in parts[k]
    ensures Canonical(FoldSegments(acc, parts, allowAboveRoot), allowAboveRoot)
    decreases |parts|
  {
    if parts != [] {
      PushKeepsCanonical(acc, parts[0], allowAboveRoot);
      FoldKeepsCanonical(PushSegment(acc, parts[0], allowAboveRoot), parts[1..], allowAboveRoot);
    }
  }

  /** Every result of `normalize` is rendered from a canonical segment list. */
  lemma NormalizeIsRendered(p: string)
    ensures p == [] ==> Normalize(p) == Render(false, false, [])
    ensures p != [] ==> Canonical(FoldSegments([], Split(p, '/'), p[0] != '/'), p[0] != '/')
  {
    if p != [] {
      FoldKeepsCanonical([], Split(p, '/'), p[0] != '/');
    }
  }

  lemma {:induction false} FoldAppend(acc: seq<string>, xs: seq<string>, ys: seq<string>, allowAboveRoot: bool)
    ensures FoldSegments(acc, xs + ys, allowAboveRoot)
         == FoldSegments(FoldSegments(acc, xs, allowAboveRoot), ys, allowAboveRoot)
    decreases |xs|
  {
    if xs == [] {
      assert xs + ys == ys;
    } else {
      assert (xs + ys)[1..] == xs[1..] + ys;
      FoldAppend(PushSegment(acc, xs[0], allowAboveRoot), xs[1..], ys, allowAboveRoot);
    }
  }

  /** Folding an already canonical list onto a canonical stack appends it. */
  lemma {:induction false} FoldCanonical(acc: seq<string>, segs: seq<string>, allowAboveRoot: bool)
    requires Canonical(acc + segs, allowAboveRoot)
    ensures FoldSegments(acc, segs, allowAboveRoot) == acc + segs
    decreases |segs|
  {
    if segs != [] {
      var whole := acc + segs;
      assert whole[|acc|] == segs[0];
      if segs[0] == ".." {
        assert |acc| == 0 || acc[|acc| - 1] == ".." by {
          if |acc| > 0 { assert whole[|acc| - 1] == acc[|acc| - 1]; }
        }
        assert allowAboveRoot;
      }
      assert PushSegment(acc, segs[0], allowAboveRoot) == acc + [segs[0]];
      assert (acc + [segs[0]]) + segs[1..] == whole;
      FoldCanonical(acc + [segs[0]], segs[1..], allowAboveRoot);
    }
  }

  lemma FoldEmptyPart(acc: seq<string>, allowAboveRoot: bool)
    ensures FoldSegments(acc, [""], allowAboveRoot) == acc
  {
  }

  /** A canonical rendering is left as it is by `normalize`. */
  lemma RenderIsFixed(absolute: bool, trailing: bool, segs: seq<string>)
    requires Canonical(segs, !absolute)
    ensures Normalize(Render(absolute, trailing, segs)) == Render(absolute, trailing, segs)
  {
    if segs == [] {
      EmptyRenderIsFixed(absolute, trailing);
    } else {
      SplitOfRender(absolute, trailing, segs);
      FoldFramed(absolute, trailing, segs, !absolute);
    }
  }

  /** Canonical segments between an optional leading and an optional
   *  trailing empty part fold to themselves. */
  lemma FoldFramed(absolute: bool, trailing: bool, segs: seq<string>, allowAboveRoot: bool)
    requires Canonical(segs, allowAboveRoot)
    ensures FoldSegments([], (if absolute then [""] else []) + segs + (if trailing then [""] else []), allowAboveRoot) == segs
  {
    var lead: seq<string> := if absolute then [""] else [];
    var tail: seq<string> := if trailing then [""] else [];
    FoldAppend([], lead + segs, tail, allowAboveRoot);
    FoldAppend([], lead, segs, allowAboveRoot);
    assert FoldSegments([], lead, allowAboveRoot) == [];
    FoldCanonical([], segs, allowAboveRoot);
    assert [] + segs == segs;
    assert FoldSegments(segs, tail, allowAboveRoot) == segs;
  }

  lemma EmptyRenderIsFixed(absolute: bool, trailing: bool)
    ensures Normalize(Render(absolute, trailing, [])) == Render(absolute, trailing, [])
  {
    if absolute {
      assert Split("/", '/') == [""] + Split("", '/');
    } else if trailing {
      SplitConcat(".", "", '/');
      SplitNoSeparator(".", '/');
      assert "." + "/" + "" == "./";
      SplitNoSeparator("", '/');
      assert Split("./", '/') == [".", ""];
      assert FoldSegments([], [".", ""], true) == FoldSegments([], [""], true);
    } else {
      SplitNoSeparator(".", '/');
    }
  }

  /** The parts of a non-empty rendering: an empty part for the root, the
   *  segments, an empty part for a trailing separator; its first and last
   *  characters tell whether it is absolute and has a trailing separator. */
  lemma SplitOfRender(absolute: bool, trailing: bool, segs: seq<string>)
    requires segs != [] && Canonical(segs, !absolute)
    ensures var q := Render(absolute, trailing, segs);
      && q != []
      && (q[0] == '/' <==> absolute)
      && (q[|q| - 1] == '/' <==> trailing)
      && Split(q, '/') == (if absolute then [""] else []) + segs + (if trailing then [""] else [])
  {
    var body := Join(segs, "/");
    JoinShape(segs);
    var withTail := body + (if trailing then "/" else "");
    SplitWithTail(trailing, segs);
    if absolute {
      SplitAfterRoot(withTail);
      assert Render(absolute, trailing, segs) == "/" + withTail;
    } else {
      assert Render(absolute, trailing, segs) == withTail;
    }
  }

  lemma SplitAfterRoot(rest: string)
    ensures Split("/" + rest, '/') == [""] + Split(rest, '/')
  {
    assert ("/" + rest)[1..] == rest;
  }

  lemma SplitWithTail(trailing: bool, segs: seq<string>)
    requires segs != [] && forall i :: 0 <= i < |segs| ==> '/' !in segs[i]
    ensures Split(Join(segs, "/") + (if trailing then "/" else ""), '/')
         == segs + (if trailing then [""] else [])
  {
    SplitOfJoin(segs, '/');
    if trailing {
      SplitConcat(Join(segs, "/"), "", '/');
      assert Join(segs, "/") + "/" + "" == Join(segs, "/") + "/";
    } else {
      assert Join(segs, "/") + "" == Join(segs, "/");
    }
  }

  /** A join of non-empty `/`-free segments neither starts nor ends with `/`. */
  lemma JoinShape(segs: seq<string>)
    requires |segs| >= 1
    requires forall i :: 0 <= i < |segs| ==> segs[i] != "" && '/' !in segs[i]
    ensures |Join(segs, "/")| > 0
    ensures Join(segs, "/")[0] == segs[0][0] != '/'
    ensures Join(segs, "/")[|Join(segs, "/")| - 1] == segs[|segs| - 1][|segs[|segs| - 1]| - 1] != '/'
    decreases |segs|
  {
    assert segs[0][0] in segs[0];
    var last := segs[|segs| - 1];
    assert last[|last| - 1] in last;
    if |segs| > 1 {
      JoinShape(segs[1..]);
    }
  }

  /** `normalize` is idempotent. */
  lemma NormalizeIdempotent(p: string)
    ensures Normalize(Normalize(p)) == Normalize(p)
  {
    NormalizeIsRendered(p);
    if p == [] {
      RenderIsFixed(false, false, []);
    } else {
      var absolute := p[0] == '/';
      RenderIsFixed(absolute, p[|p| - 1] == '/', FoldSegments([], Split(p, '/'), !absolute));
    }
  }

  // ---------------------------------------------------------------------
  // lowerCaseNormalizePath
  // ---------------------------------------------------------------------

  /** `lowerCaseNormalizePath`: the key the dependency collector files a path
   *  under. */
  function LowerCaseNormalizePath(p: string): string
  {
    ToLower(Normalize(p))
  }

  function LowerAll(segs: seq<string>): (r: seq<string>)
    ensures |r| == |segs| && forall i :: 0 <= i < |segs| ==> r[i] == ToLower(segs[i])
  {
    if segs == [] then [] else [ToLower(segs[0])] + LowerAll(segs[1..])
  }

  /** Lower-casing a segment keeps it empty, `.`, `..` or `/`-free exactly when
   *  it was. */
  lemma LowerSegment(seg: string)
    ensures ToLower(seg) == "" <==> seg == ""
    ensures ToLower(seg) == "." <==> seg == "."
    ensures ToLower(seg) == ".." <==> seg == ".."
    ensures '/' in ToLower(seg) <==> '/' in seg
  {
    var l := ToLower(seg);
    if l == "." { assert LowerChar(seg[0]) == '.'; }
    if l == ".." { assert LowerChar(seg[0]) == '.' && LowerChar(seg[1]) == '.'; }
    if '/' in l {
      var i :| 0 <= i < |l| && l[i] == '/';
      assert seg[i] == '/';
    }
    if '/' in seg {
      var i :| 0 <= i < |seg| && seg[i] == '/';
      assert l[i] == '/';
    }
  }

  lemma LowerKeepsCanonical(segs: seq<string>, allowAboveRoot: bool)
    requires Canonical(segs, allowAboveRoot)
    ensures Canonical(LowerAll(segs), allowAboveRoot)
  {
    forall i | 0 <= i < |segs| { LowerSegment(segs[i]); }
  }

  lemma {:induction false} ToLowerAppend(a: string, b: string)
    ensures ToLower(a + b) == ToLower(a) + ToLower(b)
  {
    var l := ToLower(a + b);
    assert forall i :: 0 <= i < |a| ==> l[i] == LowerChar(a[i]);
    assert forall i :: |a| <= i < |a| + |b| ==> l[i] == LowerChar(b[i - |a|]);
  }

  lemma {:induction false} ToLowerJoin(segs: seq<string>)
    ensures ToLower(Join(segs, "/")) == Join(LowerAll(segs), "/")
    decreases |segs|
  {
    if |segs| > 1 {
      ToLowerJoin(segs[1..]);
      ToLowerAppend(segs[0] + "/", Join(segs[1..], "/"));
      ToLowerAppend(segs[0], "/");
      assert ToLower("/") == "/";
      assert LowerAll(segs)[1..] == LowerAll(segs[1..]);
    }
  }

  lemma ToLowerRender(absolute: bool, trailing: bool, segs: seq<string>)
    ensures ToLower(Render(absolute, trailing, segs)) == Render(absolute, trailing, LowerAll(segs))
  {
    if segs != [] {
      var lead := if absolute then "/" else "";
      var tail := if trailing then "/" else "";
      ToLowerJoin(segs);
      ToLowerAppend(lead, Join(segs, "/"));
      ToLowerAppend(lead + Join(segs, "/"), tail);
      assert ToLower(lead) == lead;
      assert ToLower(tail) == tail;
    } else {
      assert ToLower("/") == "/";
      assert ToLower("./") == "./";
      assert ToLower(".") == ".";
    }
  }

  /** The collector key is idempotent: a key is its own key. */
  lemma LowerCaseNormalizePathIdempotent(p: string)
    ensures LowerCaseNormalizePath(LowerCaseNormalizePath(p)) == LowerCaseNormalizePath(p)
  {
    NormalizeIsRendered(p);
    var absolute := p != [] && p[0] == '/';
    var trailing := p != [] && p[|p| - 1] == '/';
    var segs := if p == [] then [] else FoldSegments([], Split(p, '/'), !absolute);
    assert Normalize(p) == Render(absolute, trailing, segs);
    ToLowerRender(absolute, trailing, segs);
    LowerKeepsCanonical(segs, !absolute);
    RenderIsFixed(absolute, trailing, LowerAll(segs));
    ToLowerIdempotent(Normalize(p));
  }

  lemma {:induction false} SplitLower(s: string)
    ensures Split(ToLower(s), '/') == LowerAll(Split(s, '/'))
    decreases |s|
  {
    if s != [] {
      var l := ToLower(s);
      assert l[1..] == ToLower(s[1..]);
      SplitLower(s[1..]);
      if s[0] != '/' {
        var rest := Split(s[1..], '/');
        assert ToLower([s[0]] + rest[0]) == [l[0]] + ToLower(rest[0]) by {
          ToLowerAppend([s[0]], rest[0]);
        }
        assert LowerAll([[s[0]] + rest[0]] + rest[1..]) == [ToLower([s[0]] + rest[0])] + LowerAll(rest[1..]);
        assert LowerAll(rest)[1..] == LowerAll(rest[1..]);
      }
    }
  }

  lemma PushLower(acc: seq<string>, seg: string, allowAboveRoot: bool)
    ensures PushSegment(LowerAll(acc), ToLower(seg), allowAboveRoot) == LowerAll(PushSegment(acc, seg, allowAboveRoot))
  {
    LowerSegment(seg);
    if seg == ".." {
      PushLowerUp(acc, allowAboveRoot);
    } else if seg != "" && seg != "." {
      PushLowerName(acc, seg, allowAboveRoot);
    }
  }

  lemma PushLowerUp(acc: seq<string>, allowAboveRoot: bool)
    ensures PushSegment(LowerAll(acc), "..", allowAboveRoot) == LowerAll(PushSegment(acc, "..", allowAboveRoot))
  {
    if |acc| > 0 {
      LowerSegment(acc[|acc| - 1]);
      assert LowerAll(acc)[..|acc| - 1] == LowerAll(acc[..|acc| - 1]);
    }
    assert ToLower("..") == "..";
    assert LowerAll(acc + [".."]) == LowerAll(acc) + [ToLower("..")];
  }

  lemma PushLowerName(acc: seq<string>, seg: string, allowAboveRoot: bool)
    requires seg != "" && seg != "." && seg != ".."
    ensures PushSegment(LowerAll(acc), ToLower(seg), allowAboveRoot) == LowerAll(acc + [seg])
  {
    LowerSegment(seg);
    assert LowerAll(acc + [seg]) == LowerAll(acc) + [ToLower(seg)];
  }

  lemma {:induction false} FoldLower(acc: seq<string>, parts: seq<string>, allowAboveRoot: bool)
    ensures FoldSegments(LowerAll(acc), LowerAll(parts), allowAboveRoot)
         == LowerAll(FoldSegments(acc, parts, allowAboveRoot))
    decreases |parts|
  {
    if parts != [] {
      PushLower(acc, parts[0], allowAboveRoot);
      assert LowerAll(parts)[1..] == LowerAll(parts[1..]);
      FoldLower(PushSegment(acc, parts[0], allowAboveRoot), parts[1..], allowAboveRoot);
    }
  }

  /** `normalize` commutes with lower-casing. */
  lemma NormalizeLower(p: string)
    ensures Normalize(ToLower(p)) == ToLower(Normalize(p))
  {
    if p == [] {
      assert ToLower(".") == ".";
    } else {
      var absolute := p[0] == '/';
      SplitLower(p);
      FoldLower([], Split(p, '/'), !absolute);
      ToLowerRender(absolute, p[|p| - 1] == '/', FoldSegments([], Split(p, '/'), !absolute));
    }
  }

  /** Paths that differ only in letter case share one collector key. */
  lemma LowerCaseNormalizePathIgnoresCase(p: string, q: string)
    requires ToLower(p) == ToLower(q)
    ensures LowerCaseNormalizePath(p) == LowerCaseNormalizePath(q)
  {
    NormalizeLower(p);
    NormalizeLower(q);
  }

  // ---------------------------------------------------------------------
  // dirname / join / resolve / extname
  // ---------------------------------------------------------------------

  function LastSlashBefore(p: string, end: nat): (i: int)
    requires end <= |p|
    ensures -1 <= i < end
    ensures i >= 0 ==> p[i] == '/'
    decreases end
  {
    if end == 0 then -1 else if p[end - 1] == '/' then end - 1 else LastSlashBefore(p, end - 1)
  }

  function TrailingSlashesStart(p: string, end: nat): (e: nat)
    requires 1 <= end <= |p|
    ensures 1 <= e <= end
    decreases end
  {
    if end > 1 && p[end - 1] == '/' then TrailingSlashesStart(p, end - 1) else end
  }

  /** Node's POSIX `path.dirname`: trailing separators are ignored and the
   *  text before the last separator is kept; `/` for a file at the root, `//`
   *  for one under a doubled root, `.` for a bare name. */
  function Dirname(p: string): string
  {
    if p == [] then "."
    else
      var hasRoot := p[0] == '/';
      var end := TrailingSlashesStart(p, |p|);
      var i := LastSlashBefore(p, end);
      if i <= 0 then (if hasRoot then "/" else ".")
      else if hasRoot && i == 1 then "//"
      else p[..i]
  }

  /** The directory part of a file path that has one: everything before the
   *  last separator. */
  lemma DirnameOfFile(dir: string, name: string)
    requires |dir| >= 2 && dir[0] == '/' && dir[1] != '/'
    requires name != [] && '/' !in name
    ensures Dirname(dir + "/" + name) == dir
  {
    var p := dir + "/" + name;
    assert p[|p| - 1] == name[|name| - 1];
    assert p[|p| - 1] != '/' by { assert name[|name| - 1] in name; }
    LastSlashOfFile(dir, name, |name|);
    assert p[..|dir|] == dir;
  }

  lemma {:induction false} LastSlashOfFile(dir: string, name: string, k: nat)
    requires '/' !in name && k <= |name|
    ensures LastSlashBefore(dir + "/" + name, |dir| + 1 + k) == |dir|
    decreases k
  {
    var p := dir + "/" + name;
    if k == 0 {
      assert p[|dir|] == '/';
    } else {
      assert p[|dir| + k] == name[k - 1];
      assert name[k - 1] in name;
      LastSlashOfFile(dir, name, k - 1);
    }
  }

  /** The arguments `path.resolve` combines: the last absolute one and those
   *  after it, or all of them behind the working directory. */
  function ResolveFrom(parts: seq<string>, cwd: string): string
    decreases |parts|
  {
    if parts == [] then cwd
    else
      var last := parts[|parts| - 1];
      if last == "" then ResolveFrom(parts[..|parts| - 1], cwd)
      else if last[0] == '/' then last
      else ResolveFrom(parts[..|parts| - 1], cwd) + "/" + last
  }

  /** Node's POSIX `path.resolve` with `cwd` standing for `process.cwd()` (an
   *  absolute path): segments are normalised without climbing above the root
   *  and no trailing separator is kept. */
  function Resolve(parts: seq<string>, cwd: string): (r: string)
    ensures |r| >= 1 && r[0] == '/'
  {
    var combined := ResolveFrom(parts, cwd);
    var segs := FoldSegments([], Split(combined, '/'), false);
    "/" + Join(segs, "/")
  }

  /** `path.isAbsolute` on POSIX. */
  predicate IsAbsolute(p: string)
  {
    p != [] && p[0] == '/'
  }

  /** Node's POSIX `path.extname`: from the last `.` of the last segment, when
   *  that `.` is not the segment's first character and the segment is not
   *  `..`; `""` otherwise. */
  function Extname(p: string): string
  {
    var base := BaseSegment(p);
    var dot := LastIndexOfChar(base, '.');
    if dot <= 0 || base == ".." then "" else base[dot..]
  }

  /** The last `/`-separated segment, ignoring trailing separators. */
  function BaseSegment(p: string): string
  {
    if p == [] then ""
    else
      var end := TrailingSlashesStart(p, |p|);
      var end' := if end == 1 && p[0] == '/' then 0 else end;
      var i := LastSlashBefore(p, end');
      p[i + 1..end']
  }

  function LastIndexOfChar(s: string, c: char): (i: int)
    ensures -1 <= i < |s|
    ensures i >= 0 ==> s[i] == c && c !in s[i + 1..]
    ensures i == -1 ==> c !in s
  {
    if s == [] then -1
    else if s[|s| - 1] == c then |s| - 1
    else
      var k := LastIndexOfChar(s[..|s| - 1], c);
      assert s == s[..|s| - 1] + [s[|s| - 1]];
      k
  }

  /** `path.resolve(file, '../', './' + name)` names `name` in the directory
   *  of an absolute, normalised file path. */
  lemma ResolveBeside(dirSegs: seq<string>, file: string, name: string, cwd: string)
    requires Canonical(dirSegs + [file], false)
    requires name != "" && name != "." && name != ".." && '/' !in name
    ensures Resolve(["/" + Join(dirSegs + [file], "/"), "../", "./" + name], cwd) == "/" + Join(dirSegs + [name], "/")
  {
    var w := dirSegs + [file];
    var f := "/" + Join(w, "/");
    var parts := [""] + w + ["..", "", ".", name];
    ResolveFromBeside(f, name, cwd);
    JoinBeside(w, name);
    forall i | 0 <= i < |parts| ensures '/' !in parts[i] {
      if 1 <= i <= |w| {
        assert parts[i] == w[i - 1];
      }
    }
    SplitOfJoin(parts, '/');
    FoldBeside(dirSegs, file, name);
  }

  lemma ResolveFromBeside(f: string, name: string, cwd: string)
    requires f != "" && f[0] == '/'
    ensures ResolveFrom([f, "../", "./" + name], cwd) == f + "/" + "../" + "/" + ("./" + name)
  {
    var args := [f, "../", "./" + name];
    assert args[..2] == [f, "../"] && [f, "../"][..1] == [f];
    assert ResolveFrom([f], cwd) == f;
    assert ResolveFrom([f, "../"], cwd) == f + "/" + "../";
    assert ("./" + name)[0] == '.';
  }

  lemma JoinBeside(w: seq<string>, name: string)
    requires |w| >= 1
    ensures Join([""] + w + ["..", "", ".", name], "/") == "/" + Join(w, "/") + "/" + "../" + "/" + ("./" + name)
  {
    JoinBesideWith(w, "..", "", ".", name, "/", "../", "./" + name);
  }

  /** `Join` over a leading empty part and four more, with the separator and
   *  the parts left abstract. */
  lemma JoinBesideWith(w: seq<string>, a: string, b: string, c: string, d: string, sep: string, up: string, dn: string)
    requires |w| >= 1 && b == "" && up == a + sep && dn == c + sep + d
    ensures Join([""] + w + [a, b, c, d], sep) == sep + Join(w, sep) + sep + up + sep + dn
  {
    var tail := [a, b, c, d];
    assert ([""] + w + tail)[1..] == w + tail;
    JoinFour(w, a, b, c, d, sep);
    Reassociate(Join(w, sep), sep, a, b, c, d, up, dn);
  }

  lemma JoinFour(w: seq<string>, a: string, b: string, c: string, d: string, sep: string)
    requires |w| >= 1
    ensures Join(w + [a, b, c, d], sep) == Join(w, sep) + sep + a + sep + b + sep + c + sep + d
  {
    JoinAppend(w, a, sep);
    JoinAppend(w + [a], b, sep);
    JoinAppend(w + [a, b], c, sep);
    JoinAppend(w + [a, b, c], d, sep);
    assert (w + [a]) + [b] == w + [a, b];
    assert (w + [a, b]) + [c] == w + [a, b, c];
    assert (w + [a, b, c]) + [d] == w + [a, b, c, d];
  }

  lemma Reassociate(x: string, s: string, dd: string, e: string, dot: string, n: string, up: string, dn: string)
    requires e == "" && up == dd + s && dn == dot + s + n
    ensures "" + s + (x + s + dd + s + e + s + dot + s + n) == s + x + s + up + s + dn
  {
  }

  lemma FoldBeside(dirSegs: seq<string>, file: string, name: string)
    requires Canonical(dirSegs + [file], false)
    requires name != "" && name != "." && name != ".."
    ensures FoldSegments([], [""] + (dirSegs + [file]) + ["..", "", ".", name], false) == dirSegs + [name]
  {
    var w := dirSegs + [file];
    FoldAppend([], [""] + w, ["..", "", ".", name], false);
    assert ([""] + w)[1..] == w;
    FoldCanonical([], w, false);
    assert [] + w == w;
    assert w[|w| - 1] == file;
    FoldUpThenName(dirSegs, file, name);
  }

  /** `..` drops the file segment, the empty and `.` segments are skipped,
   *  and the name is pushed. */
  lemma FoldUpThenName(dirSegs: seq<string>, file: string, name: string)
    requires file != ".." && name != "" && name != "." && name != ".."
    ensures FoldSegments(dirSegs + [file], ["..", "", ".", name], false) == dirSegs + [name]
  {
    var w := dirSegs + [file];
    assert w[..|w| - 1] == dirSegs;
    PopStep(w, dirSegs, ["", ".", name]);
    SkipStep(dirSegs, "", [".", name]);
    SkipStep(dirSegs, ".", [name]);
    assert FoldSegments(dirSegs, [name], false) == FoldSegments(dirSegs + [name], [], false);
  }

  lemma PopStep(w: seq<string>, init: seq<string>, rest: seq<string>)
    requires w != [] && w[|w| - 1] != ".." && init == w[..|w| - 1]
    ensures FoldSegments(w, [".."] + rest, false) == FoldSegments(init, rest, false)
  {
    assert ([".."] + rest)[1..] == rest;
  }

  lemma SkipStep(acc: seq<string>, seg: string, rest: seq<string>)
    requires seg == "" || seg == "."
    ensures FoldSegments(acc, [seg] + rest, false) == FoldSegments(acc, rest, false)
  {
    assert ([seg] + rest)[1..] == rest;
  }

  // ---------------------------------------------------------------------
  // join
  // ---------------------------------------------------------------------

  /** The arguments of `path.join` that are not empty. */
  function NonEmptyParts(parts: seq<string>): (r: seq<string>)
    ensures forall i :: 0 <= i < |r| ==> r[i] != ""
    ensures forall x :: x in r <==> x in parts && x != ""
  {
    if parts == [] then []
    else if parts[0] == "" then NonEmptyParts(parts[1..])
    else [parts[0]] + NonEmptyParts(parts[1..])
  }

  /** Node's POSIX `path.join`: the non-empty arguments joined by `/` and
   *  normalised, or `.` when there is none. */
  function PathJoin(parts: seq<string>): string
  {
    var nonEmpty := NonEmptyParts(parts);
    if nonEmpty == [] then "." else Normalize(Join(nonEmpty, "/"))
  }
}
