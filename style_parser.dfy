/** packages/core/src/plugins/parser/StyleParserPlugin.ts: the stylesheet
 *  side of a compilation. Stylesheets are loaded with `\e` escaped, gather
 *  the stylesheets they `@import`, have their `@import` lines commented out,
 *  and are accumulated into one text that becomes the `cssInsertionModule0`
 *  module. A component's script brings in the module's own stylesheet.
 *
 *  The file system, the conditional-compilation filter and comment stripping
 *  (taken together as one text filter) and the `resolve` lookup are
 *  parameters. The postcss run of `transform` is the pair of passes in
 *  ReplaceClassName and AdjustRem over the parsed stylesheet. */
module StyleParser {
  import opened Wrappers
  import opened Strings
  import opened TemplateHooks
  import opened Modules
  import opened FileResolver
  import Paths
  import Compilation
  import CssAst
  import ReplaceClassName
  import AdjustRem

  // ---------------------------------------------------------------------
  // loadFile
  // ---------------------------------------------------------------------

  /** `content.replace(/\\e/g, '\\\\e')`: every backslash followed by `e`
   *  gets a second backslash. */
  function EscapeE(s: string): (r: string)
    ensures |r| >= |s|
  {
    if |s| >= 2 && s[0] == '\\' && s[1] == 'e' then "\\\\e" + EscapeE(s[2..])
    else if s == [] then []
    else [s[0]] + EscapeE(s[1..])
  }

  /** The inverse rewrite: `\\e` back to `\e`, left to right. */
  function UnescapeE(s: string): string
  {
    if |s| >= 3 && s[0] == '\\' && s[1] == '\\' && s[2] == 'e' then "\\e" + UnescapeE(s[3..])
    else if s == [] then []
    else [s[0]] + UnescapeE(s[1..])
  }

  predicate StartsWithBackslashE(s: string)
  {
    |s| >= 2 && s[0] == '\\' && s[1] == 'e'
  }

  /** An escaped text never starts with a lone `\e`. */
  lemma EscapedStart(s: string)
    ensures !StartsWithBackslashE(EscapeE(s))
  {
    if |s| >= 2 && s[0] == '\\' && s[1] == 'e' {
    } else if |s| >= 1 {
      var rest := EscapeE(s[1..]);
      assert EscapeE(s) == [s[0]] + rest;
      if |s| >= 3 && s[1] == '\\' && s[2] == 'e' {
        assert rest[0] == '\\' && rest[1] == '\\';
      } else if |s| >= 2 {
        assert rest == [s[1]] + EscapeE(s[2..]);
      }
    }
  }

  /** The escape loses nothing: undoing it gives the text back. */
  lemma {:induction false} EscapeRoundTrip(s: string)
    ensures UnescapeE(EscapeE(s)) == s
  {
    if |s| >= 2 && s[0] == '\\' && s[1] == 'e' {
      EscapeRoundTrip(s[2..]);
      var e := EscapeE(s[2..]);
      assert EscapeE(s) == "\\\\e" + e;
      assert ("\\\\e" + e)[3..] == e;
      assert s == "\\e" + s[2..];
    } else if s != [] {
      EscapeRoundTrip(s[1..]);
      var e := EscapeE(s[1..]);
      EscapedStart(s[1..]);
      assert EscapeE(s) == [s[0]] + e;
      assert ([s[0]] + e)[1..] == e;
      assert s == [s[0]] + s[1..];
    }
  }

  /** The file system and the lookups the style taps reach. */
  datatype StyleEnv = StyleEnv(
    exists_: string -> bool,
    read: string -> string,
    /** conditional compilation for `H5` followed by block-comment stripping */
    preprocess: string -> string,
    /** `fileResolver.resolveEntry(src, {basedir, extensions: ['.wxss']})` */
    resolveEntry: (string, string) -> Result<Option<string>>)

  /** The `style` loader: a missing file is an error; otherwise the
   *  filtered text, escaped, as content and the file as read as source. */
  function LoadStyle(env: StyleEnv, moduleName: string, filePath: string): (r: Result<JsValue>)
    ensures !env.exists_(filePath) <==> r.Err?
    ensures r.Ok? ==> IsLoadResult(r.value) && Prop(r.value, "source") == Str(env.read(filePath))
    ensures r.Ok? ==> Prop(r.value, "content") == Str(EscapeE(env.preprocess(env.read(filePath))))
  {
    if !env.exists_(filePath) then
      Err("[" + moduleName + "][StyleParserPlugin] wxss path not exists: " + filePath)
    else
      var source := env.read(filePath);
      Ok(BuildLoadResult(Str(EscapeE(env.preprocess(source))), Str(source)))
  }

  /** `resolveFile(path, 'style')` with the `style` loader; its error
   *  rejects the caller. */
  function ResolveStyle(env: StyleEnv, moduleName: string, path: string): (r: Result<File>)
    ensures r.Err? <==> !env.exists_(Paths.Normalize(path))
    ensures r.Ok? ==> r.value.filePath == Paths.Normalize(path) && r.value.fileType == "style" && r.value.meta == []
    ensures r.Ok? ==> r.value.content == Str(EscapeE(env.preprocess(env.read(Paths.Normalize(path)))))
  {
    var filePath := Paths.Normalize(path);
    match LoadStyle(env, moduleName, filePath)
    case Err(e) => Err(e)
    case Ok(loaded) => Ok(File(filePath, "style", Prop(loaded, "content"), Prop(loaded, "source"), []))
  }

  // ---------------------------------------------------------------------
  // the @import regular expressions
  // ---------------------------------------------------------------------

  predicate IsQuote(c: char) { c == '\'' || c == '"' }

  /** The length of the `[^'"]` run at the start of `s`. */
  function UrlRun(s: string): (n: nat)
    ensures n <= |s| && forall i :: 0 <= i < n ==> !IsQuote(s[i])
    ensures n < |s| ==> IsQuote(s[n])
  {
    if s != [] && !IsQuote(s[0]) then 1 + UrlRun(s[1..]) else 0
  }

  datatype ImportMatch = ImportMatch(len: nat, quote: char, url: string)

  const IMPORT: string := "@import"

  /** A match of `@import\s+(['"])([^'"]+)\1` at the start of `s`, followed
   *  by `;` when `withSemicolon` (the line form). Both runs are greedy and
   *  nothing after them can match what they stop at, so no other split of
   *  the text matches. */
  function MatchImport(s: string, withSemicolon: bool): (m: Option<ImportMatch>)
    ensures m.Some? ==> 0 < m.value.len <= |s| && StartsWith(s, IMPORT) && IsQuote(m.value.quote)
    ensures m.Some? ==> m.value.url != [] && forall i :: 0 <= i < |m.value.url| ==> !IsQuote(m.value.url[i])
  {
    if !StartsWith(s, IMPORT) then None
    else
      var afterKeyword := s[|IMPORT|..];
      var sp := SpaceRun(afterKeyword);
      var q := |IMPORT| + sp;
      if sp == 0 || q >= |s| || !IsQuote(s[q]) then None
      else
        var u := UrlRun(s[q + 1..]);
        var close := q + 1 + u;
        if u == 0 || close >= |s| || s[close] != s[q] then None
        else if withSemicolon && (close + 1 >= |s| || s[close + 1] != ';') then None
        else
          assert s[q + 1..close] == s[q + 1..][..u];
          Some(ImportMatch(close + 1 + (if withSemicolon then 1 else 0), s[q], s[q + 1..close]))
  }

  /** `[...content.matchAll(CSS_IMPORT_REGEXP)]`, each match's source. */
  function ImportSources(s: string): (srcs: seq<string>)
    ensures forall i :: 0 <= i < |srcs| ==> srcs[i] != []
    decreases |s|
  {
    if s == [] then []
    else match MatchImport(s, false)
      case Some(m) => [m.url] + ImportSources(s[m.len..])
      case None => ImportSources(s[1..])
  }

  /** `transformToString`: `content.replace(CSS_IMPORT_LINE_REGEXP, ...)`,
   *  each `@import` line turned into a comment naming it. */
  function CommentImports(s: string): string
    decreases |s|
  {
    if s == [] then []
    else match MatchImport(s, true)
      case Some(m) => "/* @import " + [m.quote] + m.url + [m.quote] + " */" + CommentImports(s[m.len..])
      case None => [s[0]] + CommentImports(s[1..])
  }

  /** Text without `@` has no import to gather and none to comment out. */
  lemma {:induction false} NoAtSignNoImport(s: string)
    requires '@' !in s
    ensures ImportSources(s) == [] && CommentImports(s) == s
    decreases |s|
  {
    if s != [] {
      assert !StartsWith(s, IMPORT) by {
        if |s| >= |IMPORT| { assert s[..|IMPORT|][0] == s[0]; }
      }
      assert '@' !in s[1..] by {
        forall i | 0 <= i < |s[1..]| ensures s[1..][i] != '@' { assert s[1..][i] == s[i + 1]; }
      }
      NoAtSignNoImport(s[1..]);
      assert s == [s[0]] + s[1..];
    }
  }

  predicate NoQuote(url: string) { forall i :: 0 <= i < |url| ==> !IsQuote(url[i]) }

  lemma UrlRunOf(url: string, rest: string)
    requires NoQuote(url) && rest != [] && IsQuote(rest[0])
    ensures UrlRun(url + rest) == |url|
    decreases |url|
  {
    if url != [] {
      assert (url + rest)[1..] == url[1..] + rest;
      UrlRunOf(url[1..], rest);
    } else {
      assert url + rest == rest;
    }
  }

  /** The match of one `@import` statement written `@import<spaces>"url"`,
   *  however many spaces, with either quote. */
  lemma MatchOfImport(w: string, q: char, url: string, post: string, withSemicolon: bool)
    requires AllSpaces(w) && w != [] && IsQuote(q) && url != [] && NoQuote(url)
    requires withSemicolon ==> post != [] && post[0] == ';'
    ensures var s := IMPORT + w + [q] + url + [q] + post;
      MatchImport(s, withSemicolon) == Some(ImportMatch(|IMPORT + w + [q] + url + [q]| + (if withSemicolon then 1 else 0), q, url))
  {
    MatchOfImportText(IMPORT + w + [q] + url + [q] + post, w, q, url, post, withSemicolon);
  }

  lemma MatchOfImportText(s: string, w: string, q: char, url: string, post: string, withSemicolon: bool)
    requires s == IMPORT + w + [q] + url + [q] + post
    requires AllSpaces(w) && w != [] && IsQuote(q) && url != [] && NoQuote(url)
    requires withSemicolon ==> post != [] && post[0] == ';'
    ensures MatchImport(s, withSemicolon) == Some(ImportMatch(|IMPORT| + |w| + 2 + |url| + (if withSemicolon then 1 else 0), q, url))
  {
    ImportParts(s, w, q, url, post);
    MatchImportAt(s, |w|, |url|, withSemicolon);
  }

  /** Where the parts of an `@import` statement sit in its text. */
  lemma ImportParts(s: string, w: string, q: char, url: string, post: string)
    requires s == IMPORT + w + [q] + url + [q] + post
    requires AllSpaces(w) && w != [] && IsQuote(q) && url != [] && NoQuote(url)
    ensures StartsWith(s, IMPORT) && SpaceRun(s[|IMPORT|..]) == |w|
    ensures s[|IMPORT| + |w|] == q && s[|IMPORT| + |w| + 1 + |url|] == q
    ensures UrlRun(s[|IMPORT| + |w| + 1..]) == |url|
    ensures s[|IMPORT| + |w| + 1..|IMPORT| + |w| + 1 + |url|] == url
    ensures post != [] ==> s[|IMPORT| + |w| + 2 + |url|] == post[0]
  {
    var rest := [q] + url + [q] + post;
    Pieces(s, IMPORT, w, rest);
    ImportPartsAt(s, |IMPORT|, |w|, q, url, post);
  }

  /** Where the three pieces of a concatenation sit in it. */
  lemma Pieces(s: string, a: string, b: string, c: string)
    requires s == a + b + c
    ensures |s| == |a| + |b| + |c|
    ensures s[..|a|] == a && s[|a|..] == b + c && s[|a| + |b|..] == c
  {
  }

  /** The parts of an `@import` statement, from where its keyword ends and
   *  its spaces end. */
  lemma ImportPartsAt(s: string, k: nat, n: nat, q: char, url: string, post: string)
    requires k + n + 2 + |url| + |post| == |s| && s[..k] == IMPORT && k == |IMPORT|
    requires s[k..] == s[k..k + n] + ([q] + url + [q] + post) && AllSpaces(s[k..k + n]) && n > 0
    requires s[k + n..] == [q] + url + [q] + post
    requires IsQuote(q) && url != [] && NoQuote(url)
    ensures StartsWith(s, IMPORT) && SpaceRun(s[k..]) == n
    ensures s[k + n] == q && s[k + n + 1 + |url|] == q
    ensures UrlRun(s[k + n + 1..]) == |url|
    ensures s[k + n + 1..k + n + 1 + |url|] == url
    ensures post != [] ==> s[k + n + 2 + |url|] == post[0]
  {
    SpaceRunOf(s[k..k + n], [q] + url + [q] + post);
    ImportQuotedPart(s, k + n, q, url, post);
  }

  lemma ImportQuotedPart(s: string, qi: nat, q: char, url: string, post: string)
    requires qi + 2 + |url| + |post| == |s| && s[qi..] == [q] + url + [q] + post
    requires IsQuote(q) && NoQuote(url)
    ensures s[qi] == q && s[qi + 1 + |url|] == q
    ensures UrlRun(s[qi + 1..]) == |url|
    ensures s[qi + 1..qi + 1 + |url|] == url
    ensures post != [] ==> s[qi + 2 + |url|] == post[0]
  {
    assert s[qi] == s[qi..][0];
    assert s[qi + 1..] == url + ([q] + post) by { assert s[qi + 1..] == s[qi..][1..]; }
    UrlRunOf(url, [q] + post);
  }



  /** The match found from the positions of its parts. */
  lemma MatchImportAt(s: string, sp: nat, u: nat, withSemicolon: bool)
    requires StartsWith(s, IMPORT) && SpaceRun(s[|IMPORT|..]) == sp > 0
    requires |IMPORT| + sp + 1 + u < |s| && IsQuote(s[|IMPORT| + sp])
    requires UrlRun(s[|IMPORT| + sp + 1..]) == u > 0 && s[|IMPORT| + sp + 1 + u] == s[|IMPORT| + sp]
    requires withSemicolon ==> |IMPORT| + sp + 2 + u < |s| && s[|IMPORT| + sp + 2 + u] == ';'
    ensures MatchImport(s, withSemicolon) == Some(ImportMatch(|IMPORT| + sp + 2 + u + (if withSemicolon then 1 else 0),
      s[|IMPORT| + sp], s[|IMPORT| + sp + 1..|IMPORT| + sp + 1 + u]))
  {
  }


  /** An `@import` line becomes a comment naming it, with its whitespace
   *  reduced to one space; the rest of the text is rewritten after it. */
  lemma ImportLineCommented(w: string, q: char, url: string, post: string)
    requires AllSpaces(w) && w != [] && IsQuote(q) && url != [] && NoQuote(url)
    ensures CommentImports(IMPORT + w + [q] + url + [q] + ";" + post) ==
      "/* @import " + [q] + url + [q] + " */" + CommentImports(post)
  {
    var line := IMPORT + w + [q] + url + [q] + ";";
    assert line + post == IMPORT + w + [q] + url + [q] + (";" + post);
    MatchOfImport(w, q, url, ";" + post, true);
    assert (line + post)[|line|..] == post;
  }

  /** An `@import`, with or without the closing `;`, is gathered as a
   *  dependency, and the text after it is searched on. */
  lemma ImportGathered(w: string, q: char, url: string, post: string)
    requires AllSpaces(w) && w != [] && IsQuote(q) && url != [] && NoQuote(url)
    ensures ImportSources(IMPORT + w + [q] + url + [q] + post) == [url] + ImportSources(post)
  {
    var stmt := IMPORT + w + [q] + url + [q];
    MatchOfImport(w, q, url, post, false);
    assert (stmt + post)[|stmt|..] == post;
  }

  /** An `@import` without the closing `;` is left as written by the line
   *  rewrite, which needs the `;`. */
  lemma UnterminatedImportKept(w: string, q: char, url: string)
    requires AllSpaces(w) && w != [] && IsQuote(q) && url != [] && NoQuote(url) && '@' !in url
    ensures CommentImports(IMPORT + w + [q] + url + [q]) == IMPORT + w + [q] + url + [q]
  {
    UnterminatedImportText(IMPORT + w + [q] + url + [q], w, q, url);
  }

  lemma UnterminatedImportText(stmt: string, w: string, q: char, url: string)
    requires stmt == IMPORT + w + [q] + url + [q]
    requires AllSpaces(w) && w != [] && IsQuote(q) && url != [] && NoQuote(url) && '@' !in url
    ensures CommentImports(stmt) == stmt
  {
    assert MatchImport(stmt, true).None? by {
      ImportParts(stmt, w, q, url, []);
      NoSemicolonNoLine(stmt, |w|, |url|);
    }
    assert '@' !in stmt[1..] by {
      NoAtSignAfterKeyword(stmt, w, q, url);
    }
    KeptWithoutLine(stmt);
  }

  lemma NoAtSignAfterKeyword(stmt: string, w: string, q: char, url: string)
    requires stmt == IMPORT + w + [q] + url + [q]
    requires AllSpaces(w) && IsQuote(q) && '@' !in url
    ensures '@' !in stmt[1..]
  {
    assert stmt[1..] == IMPORT[1..] + w + [q] + url + [q];
    assert '@' !in IMPORT[1..] by { assert IMPORT[1..] == "import"; }
    assert '@' !in w by { assert !IsSpace('@'); }
  }

  /** Text that is no `@import` line where it starts and has no `@` after
   *  that is left as it is. */
  lemma KeptWithoutLine(s: string)
    requires s != [] && MatchImport(s, true).None? && '@' !in s[1..]
    ensures CommentImports(s) == s
  {
    NoAtSignNoImport(s[1..]);
    assert s == [s[0]] + s[1..];
  }

  /** A statement that ends at its closing quote is no `@import` line. */
  lemma NoSemicolonNoLine(s: string, sp: nat, u: nat)
    requires StartsWith(s, IMPORT) && SpaceRun(s[|IMPORT|..]) == sp
    requires |s| == |IMPORT| + sp + 2 + u && UrlRun(s[|IMPORT| + sp + 1..]) == u
    ensures MatchImport(s, true).None?
  {
  }

  // ---------------------------------------------------------------------
  // collectDependencies
  // ---------------------------------------------------------------------

  /** `file.meta.component` is truthy. */
  predicate IsComponentRoot(file: File)
  {
    Get(file.meta, "component").Some? && Truthy(Get(file.meta, "component").value)
  }

  /** The `js` tap: the component's root script brings in the module's
   *  stylesheet, carrying the script's metadata (`Object.assign`); any
   *  other script brings in nothing. A stylesheet that cannot be loaded
   *  rejects the tap. */
  function ScriptStyleDependency(env: StyleEnv, m: BaseModule, file: File): (r: Result<seq<File>>)
    requires DistinctKeys(file.meta)
    ensures !IsComponentRoot(file) ==> r == Ok([])
    ensures IsComponentRoot(file) ==> (r.Err? <==> ResolveStyle(env, m.name, m.wxssPath).Err?)
    ensures IsComponentRoot(file) && r.Ok? ==> |r.value| == 1
    ensures IsComponentRoot(file) && r.Ok? ==> r.value[0].filePath == Paths.Normalize(m.wxssPath) && r.value[0].fileType == "style"
    ensures IsComponentRoot(file) && r.Ok? ==> forall k :: Get(r.value[0].meta, k) == Get(file.meta, k)
  {
    if !IsComponentRoot(file) then Ok([])
    else match ResolveStyle(env, m.name, m.wxssPath)
      case Err(e) => Err(e)
      case Ok(wxssFile) =>
        SpreadSpec(wxssFile.meta, file.meta);
        Ok([wxssFile.(meta := Spread(wxssFile.meta, file.meta))])
  }

  /** The import source `src` of a stylesheet in `dir` resolves to a path. */
  predicate Resolves(env: StyleEnv, dir: string, src: string)
  {
    env.resolveEntry(src, dir).Ok? && env.resolveEntry(src, dir).value.Some?
  }

  /** The stylesheet an import source names, when it resolves. */
  function Imported(env: StyleEnv, moduleName: string, dir: string, src: string): Result<File>
    requires Resolves(env, dir, src)
  {
    ResolveStyle(env, moduleName, env.resolveEntry(src, dir).value.value)
  }

  /** The import source fails: its lookup errs, or its file cannot be
   *  loaded. */
  predicate ImportFails(env: StyleEnv, moduleName: string, dir: string, src: string)
  {
    src != [] && (env.resolveEntry(src, dir).Err? || (Resolves(env, dir, src) && Imported(env, moduleName, dir, src).Err?))
  }

  /** The `Promise.all` over the import sources: an empty or unresolved
   *  source adds nothing, a resolved one adds its stylesheet, and any
   *  failure rejects the whole tap. */
  function ImportDependencies(env: StyleEnv, moduleName: string, dir: string, srcs: seq<string>): (r: Result<seq<File>>)
    ensures r.Err? <==> exists i :: 0 <= i < |srcs| && ImportFails(env, moduleName, dir, srcs[i])
    ensures r.Ok? ==> |r.value| <= |srcs|
    ensures r.Ok? ==> forall f :: f in r.value <==>
      exists i :: 0 <= i < |srcs| && srcs[i] != [] && Resolves(env, dir, srcs[i]) && Imported(env, moduleName, dir, srcs[i]) == Ok(f)
  {
    if srcs == [] then Ok([])
    else
      var src := srcs[0];
      var rest := ImportDependencies(env, moduleName, dir, srcs[1..]);
      assert forall i :: 0 < i < |srcs| ==> srcs[i] == srcs[1..][i - 1];
      var head: Result<seq<File>> :=
        if src == [] then Ok([])
        else match env.resolveEntry(src, dir)
          case Err(e) => Err(e)
          case Ok(None) => Ok([])
          case Ok(Some(p)) =>
            match ResolveStyle(env, moduleName, p)
            case Err(e) => Err(e)
            case Ok(f) => Ok([f]);
      if head.Err? then head
      else if rest.Err? then rest
      else
        var r := head.value + rest.value;
        assert forall f :: f in r <==> f in head.value || f in rest.value;
        Ok(r)
  }

  /** The `style` tap: the stylesheets a stylesheet imports, looked up from
   *  its directory; a file whose content is not text imports nothing. */
  function StyleImportDependencies(env: StyleEnv, moduleName: string, file: File): (r: Result<seq<File>>)
    ensures !file.content.Str? ==> r == Ok([])
  {
    if !file.content.Str? then Ok([])
    else ImportDependencies(env, moduleName, Paths.Dirname(file.filePath), ImportSources(file.content.s))
  }

  /** A stylesheet with no `@` in it brings in nothing. */
  lemma NoImportNoDependency(env: StyleEnv, moduleName: string, file: File)
    requires file.content.Str? && '@' !in file.content.s
    ensures StyleImportDependencies(env, moduleName, file) == Ok([])
  {
    NoAtSignNoImport(file.content.s);
  }

  // ---------------------------------------------------------------------
  // transform
  // ---------------------------------------------------------------------

  /** The component name the class-name pass is given: the module's name
   *  under style isolation, none otherwise. */
  function ScopeName(m: BaseModule): string
  {
    if m.enableStyleIsolation then m.name else ""
  }

  /** `transform`: the postcss plugins of `getPostcssPlugins`, class names
   *  first, then lengths, over each top-level node of the stylesheet. */
  function Transform(m: BaseModule, sheet: seq<CssAst.CssNode>): (r: seq<CssAst.CssNode>)
    ensures |r| == |sheet|
  {
    seq(|sheet|, i requires 0 <= i < |sheet| => AdjustRem.AdjustRem(ReplaceClassName.ReplaceRules(sheet[i], ScopeName(m))))
  }

  /** Without style isolation only the lengths are rewritten. */
  lemma TransformWithoutIsolation(m: BaseModule, sheet: seq<CssAst.CssNode>)
    requires !m.enableStyleIsolation
    ensures forall i :: 0 <= i < |sheet| ==> Transform(m, sheet)[i] == AdjustRem.AdjustRem(sheet[i])
  {
    forall i | 0 <= i < |sheet| ensures Transform(m, sheet)[i] == AdjustRem.AdjustRem(sheet[i]) {
      ReplaceClassName.EmptyNameKeepsStylesheet(sheet[i]);
    }
  }

  // ---------------------------------------------------------------------
  // the accumulated stylesheet text
  // ---------------------------------------------------------------------

  /** The text after `processFile` has been called with each content in
   *  turn, starting from `acc`. */
  function Accumulated(contents: seq<string>, acc: string): string
  {
    if contents == [] then acc else Accumulated(contents[1..], contents[0] + "\n\n" + acc)
  }

  /** The contents, last processed first, each followed by a blank line. */
  function LatestFirst(contents: seq<string>): string
  {
    if contents == [] then "" else contents[|contents| - 1] + "\n\n" + LatestFirst(contents[..|contents| - 1])
  }

  lemma AppendAssoc(a: string, b: string, c: string)
    ensures a + (b + c) == (a + b) + c
  {
  }

  lemma {:induction false} LatestFirstCons(c: string, cs: seq<string>)
    ensures LatestFirst([c] + cs) == LatestFirst(cs) + c + "\n\n"
    decreases |cs|
  {
    var all := [c] + cs;
    if cs == [] {
      assert all[..0] == [];
    } else {
      var last, init := cs[|cs| - 1], cs[..|cs| - 1];
      assert all[|all| - 1] == last;
      assert all[..|all| - 1] == [c] + init;
      LatestFirstCons(c, init);
      var rest := LatestFirst(init);
      assert LatestFirst(all) == last + "\n\n" + (rest + c + "\n\n");
      assert LatestFirst(cs) == last + "\n\n" + rest;
      AppendAssoc(last + "\n\n", rest, c + "\n\n");
    }
  }

  /** Stylesheets processed later come first in the accumulated text. */
  lemma {:induction false} AccumulatedLatestFirst(contents: seq<string>, acc: string)
    ensures Accumulated(contents, acc) == LatestFirst(contents) + acc
    decreases |contents|
  {
    if contents != [] {
      AccumulatedLatestFirst(contents[1..], contents[0] + "\n\n" + acc);
      LatestFirstCons(contents[0], contents[1..]);
      assert contents == [contents[0]] + contents[1..];
    }
  }

  /** One more `processFile` call puts its content in front. */
  lemma {:induction false} AccumulatedSnoc(contents: seq<string>, c: string, acc: string)
    ensures Accumulated(contents + [c], acc) == c + "\n\n" + Accumulated(contents, acc)
    decreases |contents|
  {
    if contents != [] {
      assert (contents + [c])[1..] == contents[1..] + [c];
      AccumulatedSnoc(contents[1..], c, contents[0] + "\n\n" + acc);
    } else {
      assert [c][1..] == [];
    }
  }

  /** The name the accumulated stylesheet is registered under. */
  const CSS_MODULE_NAME: string := "cssInsertionModule0"

  /** The module text: a function of `rem` returning the accumulated text
   *  as a template literal. */
  function CssModuleContent(css: string): (content: string)
    ensures |content| == |"export default (rem) => `"| + |css| + 1
    ensures StartsWith(content, "export default (rem) => `") && EndsWith(content, "`")
    ensures content[|"export default (rem) => `"|..|content| - 1] == css
  {
    var head := "export default (rem) => `";
    var content := head + css + "`";
    assert content[..|head|] == head;
    assert content[|content| - 1..] == "`";
    assert content[|head|..|content| - 1] == css;
    content
  }

  class StyleParserPlugin {
    /** Plugin-wide: shared by every compilation the compiler creates. */
    var cssContent: string

    constructor ()
      ensures cssContent == ""
    {
      cssContent := "";
    }

    /** The `compilation` tap: each new compilation starts a new text. */
    method OnCompilation()
      modifies this
      ensures cssContent == ""
    {
      cssContent := "";
    }

    /** `processFile` for a stylesheet: its content goes in front. */
    method ProcessFile(content: string)
      modifies this
      ensures cssContent == Accumulated([content], old(cssContent))
    {
      cssContent := content + "\n\n" + cssContent;
    }

    /** `collectDependenciesComplete`: the accumulated text is registered
     *  as `cssInsertionModule0`, at the module's stylesheet path, unless
     *  the name is taken; `importUrl` is the module's path relative to the
     *  component's directory, with the `.css.js` extension. */
    method CollectionComplete(compilation: Compilation.Compilation, importUrl: string)
      modifies compilation`cssMap
      ensures Get(old(compilation.cssMap), CSS_MODULE_NAME).Some? ==> compilation.cssMap == old(compilation.cssMap)
      ensures Get(old(compilation.cssMap), CSS_MODULE_NAME).None? ==>
        Get(compilation.cssMap, CSS_MODULE_NAME) ==
          Some(Compilation.WxssModule(CSS_MODULE_NAME, compilation.baseModule.wxssPath, importUrl, CssModuleContent(cssContent)))
      ensures forall k :: k != CSS_MODULE_NAME ==> Get(compilation.cssMap, k) == Get(old(compilation.cssMap), k)
    {
      var cssModule := Compilation.WxssModule(CSS_MODULE_NAME, compilation.baseModule.wxssPath, importUrl, CssModuleContent(cssContent));
      if Get(compilation.cssMap, CSS_MODULE_NAME).None? {
        PutSpec(compilation.cssMap, CSS_MODULE_NAME, cssModule);
        compilation.cssMap := Put(compilation.cssMap, CSS_MODULE_NAME, cssModule);
      }
    }
  }
}
