/** packages/core/src/plugins/generator/JsxGeneratorPlugin.ts: the
 *  statement-list surgery of the JSX generator. The mini-program script is
 *  split into its constructor call (`Component(...)`, `Page(...)`,
 *  `App(...)`) and everything else; everything else is moved in front of
 *  the first non-import statement of the generated component; the imports
 *  a module needs (its WXS modules, its H5 components, the components it
 *  uses) are put at the head of a program body one by one with `unshift`;
 *  and the component class is named after the module.
 *
 *  Babel's trees are reduced to the statement kinds these steps tell
 *  apart; parsing, traversal and printing are not modelled. */
module JsxGenerator {
  import opened Wrappers
  import opened TemplateHooks
  import opened Modules
  import Utils
  import TagRuleH5Components

  // ---------------------------------------------------------------------
  // statements
  // ---------------------------------------------------------------------

  datatype Expr =
    | Ident(name: string)
    | Call(callee: Expr, arguments: seq<Expr>)
    | Member(object: Expr, property: string)
    | OtherExpr(text: string)

  datatype ImportSpecifier =
    | DefaultSpecifier(local: string)
    | NamedSpecifier(imported: string, local: string)
    | NamespaceSpecifier(local: string)

  /** A top-level statement; `OtherStatement` stands for every kind the
   *  steps here pass over (declarations, exports, ...). */
  datatype Statement =
    | ImportDecl(specifiers: seq<ImportSpecifier>, source: string)
    | ExprStatement(expression: Expr)
    | ClassDecl(id: string, superClass: Option<Expr>)
    | OtherStatement(text: string)

  /** `isMiniConstructor`: an expression statement calling the bare
   *  identifier `Component`, `Page` or `App`. */
  predicate IsMiniConstructor(node: Statement)
  {
    node.ExprStatement? && node.expression.Call? && node.expression.callee.Ident?
    && node.expression.callee.name in ["Component", "Page", "App"]
  }

  /** A program's body, the array the steps below change in place. */
  class Program {
    var body: seq<Statement>

    constructor (body: seq<Statement>)
      ensures this.body == body
    {
      this.body := body;
    }
  }

  // ---------------------------------------------------------------------
  // spliceOuterNodes
  // ---------------------------------------------------------------------

  /** The constructor calls of a body, in order. */
  function Constructors(body: seq<Statement>): (r: seq<Statement>)
    ensures |r| <= |body|
    decreases |body|
  {
    if body == [] then []
    else
      var last := body[|body| - 1];
      Constructors(body[..|body| - 1]) + if IsMiniConstructor(last) then [last] else []
  }

  /** The other statements of a body, in order. */
  function OuterNodes(body: seq<Statement>): (r: seq<Statement>)
    ensures |r| <= |body|
    decreases |body|
  {
    if body == [] then []
    else
      var last := body[|body| - 1];
      OuterNodes(body[..|body| - 1]) + if IsMiniConstructor(last) then [] else [last]
  }

  /** `spliceOuterNodes`: the index loop that takes every non-constructor
   *  statement out of the body (`splice(i, 1)` and `i--`) and returns them.
   *  Only the constructor calls stay. */
  method SpliceOuterNodes(program: Program) returns (outerNodes: seq<Statement>)
    modifies program
    ensures program.body == Constructors(old(program.body))
    ensures outerNodes == OuterNodes(old(program.body))
  {
    ghost var original := program.body;
    ghost var k := 0;
    outerNodes := [];
    var i := 0;
    while i < |program.body|
      invariant 0 <= i <= |program.body| && 0 <= k <= |original|
      invariant program.body[..i] == Constructors(original[..k])
      invariant program.body[i..] == original[k..]
      invariant outerNodes == OuterNodes(original[..k])
      decreases |program.body| - i
    {
      var node := program.body[i];
      assert node == original[k] by { assert program.body[i..][0] == original[k..][0]; }
      assert original[..k + 1][..k] == original[..k];
      if !IsMiniConstructor(node) {
        outerNodes := outerNodes + [node];
        program.body := program.body[..i] + program.body[i + 1..];
        i := i - 1;
      }
      i := i + 1;
      k := k + 1;
    }
    assert original[..k] == original;
  }

  /** The split is a partition that keeps order: the body holds exactly
   *  the constructor calls, the outer nodes exactly the rest, and together
   *  they are the statements of the script, each once. */
  lemma {:induction false} SplicePartition(body: seq<Statement>)
    ensures forall s :: s in Constructors(body) <==> s in body && IsMiniConstructor(s)
    ensures forall s :: s in OuterNodes(body) <==> s in body && !IsMiniConstructor(s)
    ensures multiset(Constructors(body)) + multiset(OuterNodes(body)) == multiset(body)
    decreases |body|
  {
    if body != [] {
      var init := body[..|body| - 1];
      SplicePartition(init);
      assert body == init + [body[|body| - 1]];
    }
  }

  // ---------------------------------------------------------------------
  // insertOuterNodes
  // ---------------------------------------------------------------------

  /** The index of the first statement at or after `k` that is not an
   *  import declaration. */
  function FirstNonImport(body: seq<Statement>, k: nat): (i: Option<nat>)
    requires k <= |body|
    ensures i.Some? ==> k <= i.value < |body| && !body[i.value].ImportDecl?
    ensures i.Some? ==> forall j :: k <= j < i.value ==> body[j].ImportDecl?
    ensures i.None? ==> forall j :: k <= j < |body| ==> body[j].ImportDecl?
    decreases |body| - k
  {
    if k == |body| then None
    else if !body[k].ImportDecl? then Some(k)
    else FirstNonImport(body, k + 1)
  }

  /** The body after `insertOuterNodes`. */
  function Inserted(body: seq<Statement>, outerNodes: seq<Statement>): seq<Statement>
  {
    match FirstNonImport(body, 0)
    case None => body
    case Some(i) => body[..i] + outerNodes + body[i..]
  }

  /** `insertOuterNodes`: the outer nodes go in before the first statement
   *  that is not an import; a body of imports only is left as it is. */
  method InsertOuterNodes(program: Program, outerNodes: seq<Statement>)
    modifies program
    ensures program.body == Inserted(old(program.body), outerNodes)
  {
    var i := 0;
    while i < |program.body|
      invariant 0 <= i <= |program.body| && program.body == old(program.body)
      invariant forall j :: 0 <= j < i ==> program.body[j].ImportDecl?
    {
      var node := program.body[i];
      if node.ImportDecl? {
        i := i + 1;
        continue;
      }
      FirstNonImportAt(program.body, i);
      program.body := program.body[..i] + outerNodes + program.body[i..];
      break;
    }
    if i == |program.body| && program.body == old(program.body) {
      FirstNonImportNone(program.body);
    }
  }

  lemma FirstNonImportAt(body: seq<Statement>, i: nat)
    requires i < |body| && !body[i].ImportDecl?
    requires forall j :: 0 <= j < i ==> body[j].ImportDecl?
    ensures FirstNonImport(body, 0) == Some(i)
  {
  }

  lemma FirstNonImportNone(body: seq<Statement>)
    requires forall j :: 0 <= j < |body| ==> body[j].ImportDecl?
    ensures FirstNonImport(body, 0).None?
  {
  }

  /** The insertion keeps the body and its leading imports in place: the
   *  statements before the outer nodes are imports only, the first
   *  statement after them is the body's first non-import one, and taking
   *  the outer nodes out gives the body back. */
  lemma InsertedLayout(body: seq<Statement>, outerNodes: seq<Statement>)
    ensures FirstNonImport(body, 0).None? ==> Inserted(body, outerNodes) == body
    ensures FirstNonImport(body, 0).Some? ==>
      var i := FirstNonImport(body, 0).value;
      var r := Inserted(body, outerNodes);
      |r| == |body| + |outerNodes| && r[i..i + |outerNodes|] == outerNodes
      && r[..i] + r[i + |outerNodes|..] == body
      && (forall j :: 0 <= j < i ==> r[j].ImportDecl?)
      && !r[i + |outerNodes|].ImportDecl?
  {
    if FirstNonImport(body, 0).Some? {
      var i := FirstNonImport(body, 0).value;
      var r := Inserted(body, outerNodes);
      assert r == body[..i] + outerNodes + body[i..];
      assert r[..i] == body[..i];
      assert r[i..i + |outerNodes|] == outerNodes;
      assert r[i + |outerNodes|..] == body[i..];
      assert body[..i] + body[i..] == body;
    }
  }

  // ---------------------------------------------------------------------
  // commonImportDeclarationAdd
  // ---------------------------------------------------------------------

  /** What the function does with one entry: put a statement at the head
   *  of the body, or throw. */
  datatype Step = Emit(statement: Statement) | Fail(thrown: Thrown)

  /** The statements put in before the first throw, in the order they
   *  were put in. */
  function EmittedBefore(steps: seq<Step>): (r: seq<Statement>)
    ensures |r| <= |steps|
  {
    if steps == [] || steps[0].Fail? then [] else [steps[0].statement] + EmittedBefore(steps[1..])
  }

  /** The first throw's message, if any. */
  function FirstFailure(steps: seq<Step>): Option<Thrown>
  {
    if steps == [] then None
    else if steps[0].Fail? then Some(steps[0].thrown)
    else FirstFailure(steps[1..])
  }

  /** A run fails exactly when one of its steps is a throw, and then with
   *  the first throw's message, after the statements before it. */
  lemma {:induction false} FirstFailureSpec(steps: seq<Step>)
    ensures FirstFailure(steps).None? <==> forall i :: 0 <= i < |steps| ==> steps[i].Emit?
    ensures FirstFailure(steps).None? ==> |EmittedBefore(steps)| == |steps|
    ensures FirstFailure(steps).Some? ==>
      exists i :: 0 <= i < |steps| && steps[i] == Fail(FirstFailure(steps).value) && |EmittedBefore(steps)| == i
    decreases |steps|
  {
    if steps != [] && steps[0].Emit? {
      FirstFailureSpec(steps[1..]);
      assert forall i :: 0 < i < |steps| ==> steps[i] == steps[1..][i - 1];
      if FirstFailure(steps).Some? {
        var i :| 0 <= i < |steps[1..]| && steps[1..][i] == Fail(FirstFailure(steps).value) && |EmittedBefore(steps[1..])| == i;
        assert steps[i + 1] == steps[1..][i];
      }
    } else if steps != [] {
      assert steps[0] == Fail(FirstFailure(steps).value);
    }
  }

  lemma {:induction false} RunAppend(a: seq<Step>, b: seq<Step>)
    ensures FirstFailure(a).None? ==>
      EmittedBefore(a + b) == EmittedBefore(a) + EmittedBefore(b) && FirstFailure(a + b) == FirstFailure(b)
    ensures FirstFailure(a).Some? ==>
      EmittedBefore(a + b) == EmittedBefore(a) && FirstFailure(a + b) == FirstFailure(a)
    decreases |a|
  {
    if a == [] {
      assert a + b == b;
    } else {
      assert (a + b)[0] == a[0] && (a + b)[1..] == a[1..] + b;
      RunAppend(a[1..], b);
    }
  }

  /** `Array.prototype.unshift` puts each statement at the head, so a run
   *  of them ends up last-first. */
  function Reverse(s: seq<Statement>): (r: seq<Statement>)
    ensures |r| == |s|
    decreases |s|
  {
    if s == [] then [] else [s[|s| - 1]] + Reverse(s[..|s| - 1])
  }

  lemma {:induction false} ReverseIndex(s: seq<Statement>)
    ensures forall i :: 0 <= i < |s| ==> Reverse(s)[i] == s[|s| - 1 - i]
    decreases |s|
  {
    if s != [] {
      ReverseIndex(s[..|s| - 1]);
    }
  }

  /** Reversing twice gives the iteration order back. */
  lemma ReverseReverse(s: seq<Statement>)
    ensures Reverse(Reverse(s)) == s
  {
    ReverseIndex(s);
    ReverseIndex(Reverse(s));
  }

  /** `import name from 'source'`. */
  function DefaultImport(name: string, source: string): Statement
  {
    ImportDecl([DefaultSpecifier(name)], source)
  }

  /** The statement `import { a, b } from 'library'`, built as an
   *  identifier holding that text. */
  function LibraryImport(library: string, comps: seq<string>): Statement
  {
    ExprStatement(Ident("import { " + Strings.Join(comps, ", ") + " } from '" + library + "'"))
  }

  /** What `identifier(undefined)` throws for a `<wxs>` without `module`,
   *  and what reading `h5Components` of an absent config throws. */
  datatype Thrown = UnnamedWxs | NoConfig
  {
    function Message(): string
    {
      match this
      case UnnamedWxs => "Property name expected type of string but got undefined"
      case NoConfig => "Cannot read properties of undefined (reading 'h5Components')"
    }
  }

  /** A WXS module: a default import of `<importUrlH5>.js` under its name;
   *  none when `importUrlH5` is empty. */
  function WxsImport(w: WxsModule): seq<Step>
  {
    if w.importUrlH5 == "" then []
    else if w.name.None? then [Fail(UnnamedWxs)]
    else [Emit(DefaultImport(w.name.value, w.importUrlH5 + ".js"))]
  }

  /** The steps of a loop over `xs`, `f` giving those of one element. */
  function Concat<T>(xs: seq<T>, f: T -> seq<Step>): seq<Step>
    decreases |xs|
  {
    if xs == [] then [] else Concat(xs[..|xs| - 1], f) + f(xs[|xs| - 1])
  }

  lemma ConcatSnoc<T>(xs: seq<T>, i: nat, f: T -> seq<Step>)
    requires i < |xs|
    ensures Concat(xs[..i + 1], f) == Concat(xs[..i], f) + f(xs[i])
  {
    var upTo := xs[..i + 1];
    assert upTo[..|upTo| - 1] == xs[..i] && upTo[|upTo| - 1] == xs[i];
  }

  /** A loop's steps split where its elements are split. */
  lemma {:induction false} ConcatSplit<T>(xs: seq<T>, j: nat, f: T -> seq<Step>)
    requires j <= |xs|
    ensures Concat(xs, f) == Concat(xs[..j], f) + Concat(xs[j..], f)
    decreases |xs|
  {
    if j == |xs| {
      assert xs[..j] == xs && xs[j..] == [];
    } else {
      var init := xs[..|xs| - 1];
      ConcatSplit(init, j, f);
      assert init[..j] == xs[..j];
      var tail := xs[j..];
      assert tail[..|tail| - 1] == init[j..] && tail[|tail| - 1] == xs[|xs| - 1];
    }
  }

  /** A loop none of whose elements throws does not throw. */
  lemma {:induction false} ConcatNoFailure<T>(xs: seq<T>, f: T -> seq<Step>)
    requires forall i :: 0 <= i < |xs| ==> FirstFailure(f(xs[i])).None?
    ensures FirstFailure(Concat(xs, f)).None?
    decreases |xs|
  {
    if xs != [] {
      var init := xs[..|xs| - 1];
      assert forall i :: 0 <= i < |init| ==> init[i] == xs[i];
      ConcatNoFailure(init, f);
      RunAppend(Concat(init, f), f(xs[|xs| - 1]));
    }
  }

  function WxsSteps(ws: seq<WxsModule>): seq<Step>
  {
    Concat(ws, WxsImport)
  }

  /** The `src` of an `h5Components` entry, when it is a non-empty string;
   *  a bare-string entry has none. */
  function H5Source(c: H5Component): Option<string>
  {
    if c.H5Entry? && c.src.Some? && c.src.value != "" then c.src else None
  }

  /** `defaultExport = true` when the entry does not say. */
  predicate IsDefaultExport(c: H5Component)
  {
    c.H5Entry? && c.defaultExport.GetOr(true)
  }

  function H5Step(c: H5Component): seq<Step>
  {
    if H5Source(c).Some? && IsDefaultExport(c) then [Emit(DefaultImport(c.tag, H5Source(c).value))] else []
  }

  function H5EntryStep(entry: (string, H5Component)): seq<Step>
  {
    H5Step(entry.1)
  }

  function H5Steps(entries: Record<H5Component>): seq<Step>
  {
    Concat(entries, H5EntryStep)
  }

  function IncludeStep(name: string, c: IncludeComponent): seq<Step>
  {
    if c.defaultExport then [Emit(DefaultImport(name, c.from))] else []
  }

  function IncludeEntryStep(entry: (string, IncludeComponent)): seq<Step>
  {
    IncludeStep(entry.0, entry.1)
  }

  function IncludeSteps(includes: Record<IncludeComponent>): seq<Step>
  {
    Concat(includes, IncludeEntryStep)
  }

  /** `libraries[src].add(name)`: a new source gets a new set; a set keeps
   *  the first insertion of each name. */
  function AddComponent(libraries: Record<seq<string>>, src: string, name: string): Record<seq<string>>
  {
    var comps := Get(libraries, src).GetOr([]);
    Put(libraries, src, if name in comps then comps else comps + [name])
  }

  function H5Libraries(libraries: Record<seq<string>>, entries: Record<H5Component>): Record<seq<string>>
    decreases |entries|
  {
    if entries == [] then libraries
    else
      var prev := H5Libraries(libraries, entries[..|entries| - 1]);
      var c := entries[|entries| - 1].1;
      if H5Source(c).Some? && !IsDefaultExport(c) then AddComponent(prev, H5Source(c).value, c.tag) else prev
  }

  function IncludeLibraries(libraries: Record<seq<string>>, includes: Record<IncludeComponent>): Record<seq<string>>
    decreases |includes|
  {
    if includes == [] then libraries
    else
      var prev := IncludeLibraries(libraries, includes[..|includes| - 1]);
      var (name, c) := includes[|includes| - 1];
      if c.defaultExport then prev else AddComponent(prev, c.from, name)
  }

  function LibraryStep(entry: (string, seq<string>)): seq<Step>
  {
    [Emit(LibraryImport(entry.0, entry.1))]
  }

  function LibrarySteps(libraries: Record<seq<string>>): seq<Step>
  {
    Concat(libraries, LibraryStep)
  }

  /** The libraries gathered from a config's `h5Components` and the used
   *  components. */
  function Libraries(config: JsonConfig, includes: Record<IncludeComponent>): Record<seq<string>>
  {
    IncludeLibraries(H5Libraries([], TagRuleH5Components.H5Components(config)), includes)
  }

  /** Everything `commonImportDeclarationAdd` does, in order: the WXS
   *  imports, then (a config being required) the default-export H5
   *  imports, the default-export used components, and one named import per
   *  library. */
  function ImportSteps(wxsModules: seq<WxsModule>, jsonConfig: Option<JsonConfig>, includes: Record<IncludeComponent>): seq<Step>
  {
    WxsSteps(wxsModules) +
    match jsonConfig
    case None => [Fail(NoConfig)]
    case Some(config) =>
      H5Steps(TagRuleH5Components.H5Components(config)) + IncludeSteps(includes) + LibrarySteps(Libraries(config, includes))
  }

  /** `commonImportDeclarationAdd(compilation, path)`: the WXS modules
   *  (`wxsMap.values()`), the config's `h5Components` and the used
   *  components (`includeComponentsMap`), each in iteration order, and the
   *  libraries in the order their first component came; every import is
   *  unshifted, so the body starts with them last-first. A throw leaves the
   *  imports put in so far. */
  method CommonImportDeclarationAdd(program: Program, wxsModules: seq<WxsModule>, jsonConfig: Option<JsonConfig>,
                                    includes: Record<IncludeComponent>)
    returns (error: Option<Thrown>)
    modifies program
    ensures var steps := ImportSteps(wxsModules, jsonConfig, includes);
      program.body == Reverse(EmittedBefore(steps)) + old(program.body) && error == FirstFailure(steps)
  {
    error := AddWxsImports(program, wxsModules);
    if error.Some? {
      WxsFailureStops(wxsModules, jsonConfig, includes);
      return;
    }
    if jsonConfig.None? {
      NoConfigStops(wxsModules, includes);
      return Some(NoConfig);
    }
    ghost var afterWxs := program.body;
    var h5 := TagRuleH5Components.H5Components(jsonConfig.value);
    var libraries := AddH5Imports(program, h5);
    libraries := AddIncludeImports(program, includes, libraries);
    AddLibraryImports(program, libraries);
    ConfigComposed(wxsModules, jsonConfig.value, includes, old(program.body), afterWxs, program.body);
  }

  /** A throw among the WXS imports is the function's. */
  lemma WxsFailureStops(wxsModules: seq<WxsModule>, jsonConfig: Option<JsonConfig>, includes: Record<IncludeComponent>)
    requires FirstFailure(WxsSteps(wxsModules)).Some?
    ensures EmittedBefore(ImportSteps(wxsModules, jsonConfig, includes)) == EmittedBefore(WxsSteps(wxsModules))
    ensures FirstFailure(ImportSteps(wxsModules, jsonConfig, includes)) == FirstFailure(WxsSteps(wxsModules))
  {
    var steps := ImportSteps(wxsModules, jsonConfig, includes);
    var rest := steps[|WxsSteps(wxsModules)|..];
    assert steps == WxsSteps(wxsModules) + rest;
    RunAppend(WxsSteps(wxsModules), rest);
  }

  /** Without a config, the throw comes right after the WXS imports. */
  lemma NoConfigStops(wxsModules: seq<WxsModule>, includes: Record<IncludeComponent>)
    requires FirstFailure(WxsSteps(wxsModules)).None?
    ensures EmittedBefore(ImportSteps(wxsModules, None, includes)) == EmittedBefore(WxsSteps(wxsModules))
    ensures FirstFailure(ImportSteps(wxsModules, None, includes)) == Some(NoConfig)
  {
    FailAppended(WxsSteps(wxsModules), NoConfig, []);
    assert ImportSteps(wxsModules, None, includes) == WxsSteps(wxsModules) + [Fail(NoConfig)] + [];
  }

  /** With a config, the four loops put in their imports one after the
   *  other. */
  lemma ConfigComposed(wxsModules: seq<WxsModule>, config: JsonConfig, includes: Record<IncludeComponent>,
                       start: seq<Statement>, afterWxs: seq<Statement>, final: seq<Statement>)
    requires FirstFailure(WxsSteps(wxsModules)).None?
    requires afterWxs == Reverse(EmittedBefore(WxsSteps(wxsModules))) + start
    requires final == Reverse(EmittedBefore(LibrarySteps(Libraries(config, includes))))
      + (Reverse(EmittedBefore(IncludeSteps(includes)))
      + (Reverse(EmittedBefore(H5Steps(TagRuleH5Components.H5Components(config)))) + afterWxs))
    ensures final == Reverse(EmittedBefore(ImportSteps(wxsModules, Some(config), includes))) + start
    ensures FirstFailure(ImportSteps(wxsModules, Some(config), includes)).None?
  {
    var h5 := TagRuleH5Components.H5Components(config);
    var libraries := Libraries(config, includes);
    NoFailureSteps(h5, includes, libraries);
    StepsComposed(WxsSteps(wxsModules), H5Steps(h5), IncludeSteps(includes), LibrarySteps(libraries), start, afterWxs, final);
  }

  /** The WXS imports, then three more runs of them, unshifted in turn. */
  lemma StepsComposed(w: seq<Step>, a: seq<Step>, b: seq<Step>, c: seq<Step>,
                      start: seq<Statement>, afterWxs: seq<Statement>, final: seq<Statement>)
    requires FirstFailure(w).None? && FirstFailure(a).None? && FirstFailure(b).None? && FirstFailure(c).None?
    requires afterWxs == Reverse(EmittedBefore(w)) + start
    requires final == Reverse(EmittedBefore(c)) + (Reverse(EmittedBefore(b)) + (Reverse(EmittedBefore(a)) + afterWxs))
    ensures final == Reverse(EmittedBefore(w + (a + b + c))) + start
    ensures FirstFailure(w + (a + b + c)).None?
  {
    var rest := a + b + c;
    ImportsComposed(a, b, c, afterWxs);
    RunAppend(w, rest);
    ReverseAppend(EmittedBefore(w), EmittedBefore(rest));
  }

  lemma ImportsComposed(a: seq<Step>, b: seq<Step>, c: seq<Step>, start: seq<Statement>)
    requires FirstFailure(a).None? && FirstFailure(b).None? && FirstFailure(c).None?
    ensures FirstFailure(a + b + c).None?
    ensures Reverse(EmittedBefore(c)) + (Reverse(EmittedBefore(b)) + (Reverse(EmittedBefore(a)) + start))
         == Reverse(EmittedBefore(a + b + c)) + start
  {
    RunAppend(a, b);
    RunAppend(a + b, c);
    ReverseAppend(EmittedBefore(a), EmittedBefore(b));
    ReverseAppend(EmittedBefore(a) + EmittedBefore(b), EmittedBefore(c));
  }

  lemma ReverseAppend(a: seq<Statement>, b: seq<Statement>)
    ensures Reverse(a + b) == Reverse(b) + Reverse(a)
  {
    ReverseIndex(a);
    ReverseIndex(b);
    ReverseIndex(a + b);
  }

  /** Unshifting one statement after a run of them. */
  lemma UnshiftOne(done: seq<Step>, node: Statement, start: seq<Statement>)
    requires FirstFailure(done).None?
    ensures FirstFailure(done + [Emit(node)]).None?
    ensures Reverse(EmittedBefore(done + [Emit(node)])) + start == [node] + (Reverse(EmittedBefore(done)) + start)
  {
    RunAppend(done, [Emit(node)]);
    assert EmittedBefore([Emit(node)]) == [node];
    assert (EmittedBefore(done) + [node])[..|EmittedBefore(done)|] == EmittedBefore(done);
    assert Reverse(EmittedBefore(done + [Emit(node)])) == [node] + Reverse(EmittedBefore(done));
  }

  /** The loop over `wxsMap.values()`. */
  method AddWxsImports(program: Program, wxsModules: seq<WxsModule>) returns (error: Option<Thrown>)
    modifies program
    ensures program.body == Reverse(EmittedBefore(WxsSteps(wxsModules))) + old(program.body)
    ensures error == FirstFailure(WxsSteps(wxsModules))
  {
    ghost var done: seq<Step> := [];
    for i := 0 to |wxsModules|
      invariant done == WxsSteps(wxsModules[..i]) && FirstFailure(done).None?
      invariant program.body == Reverse(EmittedBefore(done)) + old(program.body)
    {
      var w := wxsModules[i];
      ConcatSnoc(wxsModules, i, WxsImport);
      if w.importUrlH5 == "" {
        continue;
      }
      if w.name.None? {
        UnnamedStops(wxsModules, i);
        return Some(UnnamedWxs);
      }
      var node := DefaultImport(w.name.value, w.importUrlH5 + ".js");
      UnshiftOne(done, node, old(program.body));
      program.body := [node] + program.body;
      done := done + [Emit(node)];
    }
    assert wxsModules[..|wxsModules|] == wxsModules;
    error := None;
  }

  /** A `<wxs>` without name that has an H5 import URL ends the loop. */
  lemma UnnamedStops(ws: seq<WxsModule>, i: nat)
    requires i < |ws| && ws[i].importUrlH5 != "" && ws[i].name.None?
    requires FirstFailure(WxsSteps(ws[..i])).None?
    ensures EmittedBefore(WxsSteps(ws)) == EmittedBefore(WxsSteps(ws[..i]))
    ensures FirstFailure(WxsSteps(ws)) == Some(UnnamedWxs)
  {
    ConcatSnoc(ws, i, WxsImport);
    ConcatSplit(ws, i + 1, WxsImport);
    FailAppended(WxsSteps(ws[..i]), UnnamedWxs, WxsSteps(ws[i + 1..]));
  }

  /** A throw after a run without one: the run's statements, the throw's
   *  message, whatever follows. */
  lemma FailAppended(done: seq<Step>, message: Thrown, rest: seq<Step>)
    requires FirstFailure(done).None?
    ensures EmittedBefore(done + [Fail(message)] + rest) == EmittedBefore(done)
    ensures FirstFailure(done + [Fail(message)] + rest) == Some(message)
  {
    RunAppend(done, [Fail(message)] + rest);
    assert done + [Fail(message)] + rest == done + ([Fail(message)] + rest);
    assert EmittedBefore(done) + [] == EmittedBefore(done);
  }

  /** The loop over `h5Components`. */
  method AddH5Imports(program: Program, h5: Record<H5Component>) returns (libraries: Record<seq<string>>)
    modifies program
    ensures FirstFailure(H5Steps(h5)).None?
    ensures program.body == Reverse(EmittedBefore(H5Steps(h5))) + old(program.body)
    ensures libraries == H5Libraries([], h5)
  {
    ghost var done: seq<Step> := [];
    libraries := [];
    for i := 0 to |h5|
      invariant done == H5Steps(h5[..i]) && FirstFailure(done).None?
      invariant libraries == H5Libraries([], h5[..i])
      invariant program.body == Reverse(EmittedBefore(done)) + old(program.body)
    {
      var c := h5[i].1;
      ConcatSnoc(h5, i, H5EntryStep);
      assert h5[..i + 1][..i] == h5[..i] && h5[..i + 1][i] == h5[i];
      if H5Source(c).None? {
        continue;
      }
      if IsDefaultExport(c) {
        var node := DefaultImport(c.tag, H5Source(c).value);
        UnshiftOne(done, node, old(program.body));
        program.body := [node] + program.body;
        done := done + [Emit(node)];
      } else {
        libraries := AddComponent(libraries, H5Source(c).value, c.tag);
      }
    }
    assert h5[..|h5|] == h5;
  }

  /** One more used component: its step and its library entry. */
  lemma IncludeSnoc(libraries0: Record<seq<string>>, includes: Record<IncludeComponent>, i: nat)
    requires i < |includes|
    ensures IncludeSteps(includes[..i + 1]) == IncludeSteps(includes[..i]) + IncludeStep(includes[i].0, includes[i].1)
    ensures IncludeLibraries(libraries0, includes[..i + 1]) ==
      var prev := IncludeLibraries(libraries0, includes[..i]);
      if includes[i].1.defaultExport then prev else AddComponent(prev, includes[i].1.from, includes[i].0)
  {
    ConcatSnoc(includes, i, IncludeEntryStep);
    assert includes[..i + 1][..i] == includes[..i] && includes[..i + 1][i] == includes[i];
  }

  /** The loop over `includeComponentsMap.entries()`. */
  method AddIncludeImports(program: Program, includes: Record<IncludeComponent>, libraries0: Record<seq<string>>)
    returns (libraries: Record<seq<string>>)
    modifies program
    ensures FirstFailure(IncludeSteps(includes)).None?
    ensures program.body == Reverse(EmittedBefore(IncludeSteps(includes))) + old(program.body)
    ensures libraries == IncludeLibraries(libraries0, includes)
  {
    ghost var done: seq<Step> := [];
    libraries := libraries0;
    for i := 0 to |includes|
      invariant done == IncludeSteps(includes[..i]) && FirstFailure(done).None?
      invariant libraries == IncludeLibraries(libraries0, includes[..i])
      invariant program.body == Reverse(EmittedBefore(done)) + old(program.body)
    {
      var (name, c) := includes[i];
      IncludeSnoc(libraries0, includes, i);
      if c.defaultExport {
        var node := DefaultImport(name, c.from);
        UnshiftOne(done, node, old(program.body));
        program.body := [node] + program.body;
        done := done + [Emit(node)];
      } else {
        libraries := AddComponent(libraries, c.from, name);
      }
    }
    assert includes[..|includes|] == includes;
  }

  /** `Object.keys(libraries).forEach(...)`. */
  method AddLibraryImports(program: Program, libraries: Record<seq<string>>)
    modifies program
    ensures FirstFailure(LibrarySteps(libraries)).None?
    ensures program.body == Reverse(EmittedBefore(LibrarySteps(libraries))) + old(program.body)
  {
    ghost var done: seq<Step> := [];
    for i := 0 to |libraries|
      invariant done == LibrarySteps(libraries[..i]) && FirstFailure(done).None?
      invariant program.body == Reverse(EmittedBefore(done)) + old(program.body)
    {
      var node := LibraryImport(libraries[i].0, libraries[i].1);
      ConcatSnoc(libraries, i, LibraryStep);
      UnshiftOne(done, node, old(program.body));
      program.body := [node] + program.body;
      done := done + [Emit(node)];
    }
    assert libraries[..|libraries|] == libraries;
  }

  // ---------------------------------------------------------------------
  // properties of the import plan
  // ---------------------------------------------------------------------

  /** An H5 component whose source is a default export gets a default
   *  import from that source; `defaultExport` left out counts as `true`;
   *  an entry without `src` (or a bare string) adds nothing at all. */
  lemma H5EntryCases(entries: Record<H5Component>, key: string, tag: string, src: Option<string>, props: Record<string>,
                     libraries: Record<seq<string>>)
    ensures src.Some? && src.value != "" ==>
      H5Steps(entries + [(key, H5Entry(tag, src, props, None))]) == H5Steps(entries) + [Emit(DefaultImport(tag, src.value))]
    ensures src.None? || src == Some("") ==>
      H5Steps(entries + [(key, H5Entry(tag, src, props, Some(false)))]) == H5Steps(entries)
      && H5Libraries(libraries, entries + [(key, H5Entry(tag, src, props, Some(false)))]) == H5Libraries(libraries, entries)
    ensures H5Steps(entries + [(key, H5Alias(tag))]) == H5Steps(entries)
      && H5Libraries(libraries, entries + [(key, H5Alias(tag))]) == H5Libraries(libraries, entries)
  {
    var e1 := entries + [(key, H5Entry(tag, src, props, None))];
    var e2 := entries + [(key, H5Entry(tag, src, props, Some(false)))];
    var e3 := entries + [(key, H5Alias(tag))];
    assert e1[..|e1| - 1] == entries && e2[..|e2| - 1] == entries && e3[..|e3| - 1] == entries;
  }

  /** The named imports: one per source, each naming exactly the
   *  non-default components of that source, each once. */
  predicate GroupedBySource(libraries: Record<seq<string>>)
  {
    DistinctKeys(libraries)
    && forall i :: 0 <= i < |libraries| ==>
         forall j, k :: 0 <= j < k < |libraries[i].1| ==> libraries[i].1[j] != libraries[i].1[k]
  }

  /** `name` is a non-default H5 component of `src`. */
  predicate NamedH5(entries: Record<H5Component>, src: string, name: string)
  {
    exists i :: 0 <= i < |entries| && H5Source(entries[i].1) == Some(src) && !IsDefaultExport(entries[i].1)
      && entries[i].1.tag == name
  }

  /** `name` is a used component imported by name from `src`. */
  predicate NamedInclude(includes: Record<IncludeComponent>, src: string, name: string)
  {
    exists i :: 0 <= i < |includes| && !includes[i].1.defaultExport && includes[i].1.from == src && includes[i].0 == name
  }

  predicate Listed(libraries: Record<seq<string>>, src: string, name: string)
  {
    Get(libraries, src).Some? && name in Get(libraries, src).value
  }

  lemma AddComponentSpec(libraries: Record<seq<string>>, src: string, name: string)
    requires GroupedBySource(libraries)
    ensures GroupedBySource(AddComponent(libraries, src, name))
    ensures forall s, n :: Listed(AddComponent(libraries, src, name), s, n) <==> Listed(libraries, s, n) || (s == src && n == name)
  {
    var comps := Get(libraries, src).GetOr([]);
    var next := if name in comps then comps else comps + [name];
    PutSpec(libraries, src, next);
    PutKeepsDistinct(libraries, src, next);
    if Get(libraries, src).Some? {
      GetFinds(libraries, src);
    }
    AddComponentDistinct(libraries, src, name);
  }

  /** What `Get` finds is one of the entries. */
  lemma GetFinds<V>(r: Record<V>, key: string)
    requires Get(r, key).Some?
    ensures exists m :: 0 <= m < |r| && r[m] == (key, Get(r, key).value)
  {
  }

  /** Each name stays listed once per source. */
  lemma AddComponentDistinct(libraries: Record<seq<string>>, src: string, name: string)
    requires GroupedBySource(libraries)
    ensures var r := AddComponent(libraries, src, name);
      forall i :: 0 <= i < |r| ==> forall j, k :: 0 <= j < k < |r[i].1| ==> r[i].1[j] != r[i].1[k]
  {
    var comps := Get(libraries, src).GetOr([]);
    var next := if name in comps then comps else comps + [name];
    var r := AddComponent(libraries, src, name);
    assert forall j, k :: 0 <= j < k < |comps| ==> comps[j] != comps[k] by {
      if Get(libraries, src).Some? {
        var m :| 0 <= m < |libraries| && libraries[m] == (src, comps);
      }
    }
    PutEntries(libraries, src, next);
    forall i | 0 <= i < |r|
      ensures forall j, k :: 0 <= j < k < |r[i].1| ==> r[i].1[j] != r[i].1[k]
    {
      assert r[i] in r;
      if r[i] != (src, next) {
        var m :| 0 <= m < |libraries| && libraries[m] == r[i];
      }
    }
  }


  /** In a record with distinct keys, `Get` finds each entry. */
  lemma GetDistinct<V>(r: Record<V>, i: nat)
    requires DistinctKeys(r) && i < |r|
    ensures Get(r, r[i].0) == Some(r[i].1)
  {
    var v := Get(r, r[i].0);
    assert r[i].0 in Keys(r);
    var m :| 0 <= m < |r| && r[m] == (r[i].0, v.value);
  }

  lemma {:induction false} H5LibrariesSpec(entries: Record<H5Component>)
    ensures GroupedBySource(H5Libraries([], entries))
    ensures forall s, n :: Listed(H5Libraries([], entries), s, n) <==> NamedH5(entries, s, n)
    decreases |entries|
  {
    if entries != [] {
      var init := entries[..|entries| - 1];
      H5LibrariesSpec(init);
      var c := entries[|entries| - 1].1;
      if H5Source(c).Some? && !IsDefaultExport(c) {
        AddComponentSpec(H5Libraries([], init), H5Source(c).value, c.tag);
      }
      forall s, n ensures NamedH5(entries, s, n) <==>
        NamedH5(init, s, n) || (H5Source(c) == Some(s) && !IsDefaultExport(c) && c.tag == n)
      {
        if NamedH5(entries, s, n) {
          var i :| 0 <= i < |entries| && H5Source(entries[i].1) == Some(s) && !IsDefaultExport(entries[i].1) && entries[i].1.tag == n;
          if i < |init| { assert init[i] == entries[i]; }
        }
        if NamedH5(init, s, n) {
          var i :| 0 <= i < |init| && H5Source(init[i].1) == Some(s) && !IsDefaultExport(init[i].1) && init[i].1.tag == n;
          assert entries[i] == init[i];
        }
      }
    } else {
      assert Get<seq<string>>([], "").None?;
    }
  }

  lemma {:induction false} IncludeLibrariesSpec(libraries: Record<seq<string>>, includes: Record<IncludeComponent>)
    requires GroupedBySource(libraries)
    ensures GroupedBySource(IncludeLibraries(libraries, includes))
    ensures forall s, n :: Listed(IncludeLibraries(libraries, includes), s, n) <==> Listed(libraries, s, n) || NamedInclude(includes, s, n)
    decreases |includes|
  {
    if includes != [] {
      var init := includes[..|includes| - 1];
      IncludeLibrariesSpec(libraries, init);
      var (name, c) := includes[|includes| - 1];
      if !c.defaultExport {
        AddComponentSpec(IncludeLibraries(libraries, init), c.from, name);
      }
      forall s, n ensures NamedInclude(includes, s, n) <==>
        NamedInclude(init, s, n) || (!c.defaultExport && c.from == s && name == n)
      {
        if NamedInclude(includes, s, n) {
          var i :| 0 <= i < |includes| && !includes[i].1.defaultExport && includes[i].1.from == s && includes[i].0 == n;
          if i < |init| { assert init[i] == includes[i]; }
        }
        if NamedInclude(init, s, n) {
          var i :| 0 <= i < |init| && !init[i].1.defaultExport && init[i].1.from == s && init[i].0 == n;
          assert includes[i] == init[i];
        }
      }
    }
  }

  /** The non-default components are grouped into one named import per
   *  source, listing each of them once, and nothing else. */
  lemma LibrariesGrouped(config: JsonConfig, includes: Record<IncludeComponent>)
    ensures GroupedBySource(Libraries(config, includes))
    ensures forall s, n :: Listed(Libraries(config, includes), s, n) <==>
      NamedH5(TagRuleH5Components.H5Components(config), s, n) || NamedInclude(includes, s, n)
  {
    H5LibrariesSpec(TagRuleH5Components.H5Components(config));
    IncludeLibrariesSpec(H5Libraries([], TagRuleH5Components.H5Components(config)), includes);
  }

  /** Without a config the function throws after the WXS imports; with one
   *  and all WXS modules named, it does not throw. */
  lemma ImportFailures(wxsModules: seq<WxsModule>, jsonConfig: Option<JsonConfig>, includes: Record<IncludeComponent>)
    requires forall i :: 0 <= i < |wxsModules| ==> wxsModules[i].name.Some?
    ensures jsonConfig.None? ==> FirstFailure(ImportSteps(wxsModules, jsonConfig, includes)) == Some(NoConfig)
    ensures jsonConfig.Some? ==> FirstFailure(ImportSteps(wxsModules, jsonConfig, includes)).None?
  {
    WxsNamedNoFailure(wxsModules);
    var rest := ImportSteps(wxsModules, jsonConfig, includes)[|WxsSteps(wxsModules)|..];
    assert ImportSteps(wxsModules, jsonConfig, includes) == WxsSteps(wxsModules) + rest;
    RunAppend(WxsSteps(wxsModules), rest);
    if jsonConfig.Some? {
      var config := jsonConfig.value;
      var h5 := TagRuleH5Components.H5Components(config);
      NoFailureSteps(h5, includes, Libraries(config, includes));
      RunAppend(H5Steps(h5), IncludeSteps(includes));
      RunAppend(H5Steps(h5) + IncludeSteps(includes), LibrarySteps(Libraries(config, includes)));
    }
  }

  lemma WxsNamedNoFailure(ws: seq<WxsModule>)
    requires forall i :: 0 <= i < |ws| ==> ws[i].name.Some?
    ensures FirstFailure(WxsSteps(ws)).None?
  {
    ConcatNoFailure(ws, WxsImport);
  }

  lemma NoFailureSteps(h5: Record<H5Component>, includes: Record<IncludeComponent>, libraries: Record<seq<string>>)
    ensures FirstFailure(H5Steps(h5)).None? && FirstFailure(IncludeSteps(includes)).None?
    ensures FirstFailure(LibrarySteps(libraries)).None?
  {
    ConcatNoFailure(h5, H5EntryStep);
    ConcatNoFailure(includes, IncludeEntryStep);
    ConcatNoFailure(libraries, LibraryStep);
  }

  // ---------------------------------------------------------------------
  // the class rename
  // ---------------------------------------------------------------------

  /** The `ClassDeclaration` visitor: every top-level class is renamed to
   *  the module name with its first letter upper-cased. Other statements
   *  are opaque here, so a class nested inside one (which the visitor also
   *  reaches) is not renamed by the model. */
  function RenameClasses(body: seq<Statement>, moduleName: string): (r: seq<Statement>)
    ensures |r| == |body|
    ensures forall i :: 0 <= i < |body| ==>
      (if body[i].ClassDecl? then r[i] == body[i].(id := Utils.FirstLetterUppercase(moduleName)) else r[i] == body[i])
  {
    seq(|body|, i requires 0 <= i < |body| =>
      if body[i].ClassDecl? then body[i].(id := Utils.FirstLetterUppercase(moduleName)) else body[i])
  }

  /** The class takes the module's name, capitalised: an ASCII lower-case
   *  first letter becomes upper-case, the rest is kept. */
  lemma ClassRenamed(body: seq<Statement>, moduleName: string, i: nat)
    requires i < |body| && body[i].ClassDecl? && moduleName != []
    ensures RenameClasses(body, moduleName)[i].id[1..] == moduleName[1..]
    ensures 'a' <= moduleName[0] <= 'z' ==> 'A' <= RenameClasses(body, moduleName)[i].id[0] <= 'Z'
    ensures RenameClasses(RenameClasses(body, moduleName), moduleName) == RenameClasses(body, moduleName)
  {
  }
}
