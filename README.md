# matrix-cli compiler core in Dafny

matrix-cli compiles a WeChat mini-program component (its `.wxml` template, `.wxss` stylesheet, `.wxs` modules, script and JSON config) into a React/TSX module for the web. This project models the core of that compiler and proves properties of the model.

- **Build driver.** `Compiler` registers the plugins and steps through its build hooks. `Compilation` is the per-module stage machine, with `addAsset` and the per-extension asset view. The compiler entry plugins (component and library) build the module graph. The emit plugin writes the assets.
- **Dependency walk.** `DependencyCollector` walks the files reachable from a module's script, claiming each file before recursing. `FileResolver` resolves entries, including the `/miniprogram_npm/` layout, and wraps loader results.
- **Template passes.** `TemplateParser` runs the transform pass and the generate pass over the parsed `.wxml` tree. `TagName` and `TagRuleH5Components` give every element its H5 name. `AttributesPlugin` and `AttributeHandlers` turn attributes, bindings, events and class/id/style values into JSX. `Directives` and `DirectivesPlugin` wrap elements in `wx:if`/`wx:elif`/`wx:else`/`wx:for` code. `CollectThisData` gathers the data names an expression reads. `AttributeRanking` orders attributes by priority.
- **Styles.** `StyleParser` loads stylesheets, gathers their `@import`s and accumulates the CSS module. `ReplaceClassName` scopes class and id selectors to the component. `AdjustRem` rewrites lengths through the runtime `rem` function.
- **WXS and JSX.** `Wxs` turns WXS modules into ES modules. `JsxGenerator` splices the template into the component's script and adds its imports.
- **Runtime and shared pieces.** `Runtime` models the `cn` and `style` helpers that the generated code calls at run time. `Modules`, `Paths`, `Utils`, `Strings`, `TemplateConstants` and `TemplateHooks` give the shared records, constants, path functions and JavaScript string and object operations.

Parsers, printers, the file system and the conditional-compilation filter are parameters of the model, or given datatypes.

## Model

| member | source | states |
|---|---|---|
| `AdjustRem.ReplaceStyleRemSingle` | packages/core/src/parsers/style/postcssAdjustRemPlugin.ts:1-8 | a lone `<digits>px` or `<digits>rpx` value becomes one interpolated `rem("…")` call |
| `AdjustRem.ReplaceStyleRemDecimal` | packages/core/src/parsers/style/postcssAdjustRemPlugin.ts:3-5 | in a decimal length only the digits next to the unit are taken; the integer part and the dot stay in front |
| `AdjustRem.WalkEquations` | packages/core/src/parsers/style/postcssAdjustRemPlugin.ts:16-22 | the closed form is the plugin's walk: at each rule every declaration below it is rewritten and the walk continues into the rewritten children; at-rules are only passed through |
| `AdjustRem.AdjustRemWithoutLengths` | packages/core/src/parsers/style/postcssAdjustRemPlugin.ts:1-8 | a stylesheet with no `px`/`rpx` length comes back unchanged |
| `AdjustRem.AdjustRemShape` | packages/core/src/parsers/style/postcssAdjustRemPlugin.ts:16-22 | the rewrite keeps every node, selector and property; only declaration values change |
| `AdjustRem.RewriteCounts` | packages/core/src/parsers/style/postcssAdjustRemPlugin.ts:17-19 | a declaration is rewritten once under one rule, not at all directly under an at-rule, and twice under a rule nested in a rule |
| `AttributeHandlers.FreshKeyInjective` | packages/core/src/parsers/template/AttributeAndTextPlugin.ts:118 | keys drawn from `fakeGuid` at different times differ |
| `AttributeHandlers.TextWithoutBindingKept` | packages/core/src/parsers/template/AttributeAndTextPlugin.ts:61-72 | a text node without a binding is emitted as it is |
| `AttributeHandlers.DirectiveValueBrackets` | packages/core/src/parsers/template/AttributeAndTextPlugin.ts:111-114 | splitting a plain directive value on `,` and printing the array gives back exactly `[value]` |
| `AttributeHandlers.EventPrefixLength` | packages/core/src/parsers/template/AttributeAndTextPlugin.ts:153 | the event prefix taken is at most the key's length |
| `AttributeHandlers.VarOr` | packages/core/src/parsers/template/AttributeAndTextPlugin.ts:224-225 | a loop name with a non-empty default is never empty |
| `AttributeHandlers.NonEmpty` | packages/core/src/parsers/template/AttributeAndTextPlugin.ts:597 | `filter(item => item)` keeps no empty token and drops nothing from a list without one |
| `AttributeHandlers.SplitByRejoins` | packages/core/src/parsers/template/AttributeAndTextPlugin.ts:801-804 | with the flag present the two parts rejoin to the string, and the first has no flag |
| `AttributeHandlers.BailAnswered` | packages/core/src/parsers/template/AttributeAndTextPlugin.ts:90-419 | the first handler that answers decides the `attribute` hook's result |
| `AttributeHandlers.BailPastTwo` | packages/core/src/parsers/template/AttributeAndTextPlugin.ts:90-419 | handlers that decline, leaving the element as it is, hand the attribute on to the next |
| `AttributeHandlers.HandleAlwaysAnswers` | packages/core/src/parsers/template/AttributeAndTextPlugin.ts:395-419 | the fallback answers every attribute, so the hook always has a result |
| `AttributeHandlers.DirectiveFirst` | packages/core/src/parsers/template/AttributeAndTextPlugin.ts:90-100 | a directive attribute is decided by the first handler |
| `AttributeHandlers.DirectiveRecorded` | packages/core/src/parsers/template/AttributeAndTextPlugin.ts:115-140 | a directive is recorded on the element's collector under its short name and removed from the output; `if`, `elif` and `else` give the element a fresh key and append the condition, with that key, to the parent's list; `for` names its item and index `item` and `index` |
| `AttributeHandlers.DirectiveNeverEmitted` | packages/core/src/parsers/template/AttributeAndTextPlugin.ts:136-140 | a directive renders as nothing |
| `AttributeHandlers.FallThrough` | packages/core/src/parsers/template/AttributeAndTextPlugin.ts:93-419 | an attribute that no earlier handler claims falls through to the fallback, with the element unchanged |
| `AttributeHandlers.BailToFallback` | packages/core/src/parsers/template/AttributeAndTextPlugin.ts:390-419 | when the first six handlers decline, the fallback answers |
| `AttributeHandlers.FallbackValues` | packages/core/src/parsers/template/AttributeAndTextPlugin.ts:398-418 | an empty value counts as `{{true}}`, the name is camel-cased, and a value without a binding stays quoted |
| `AttributeHandlers.ErrorStops` | packages/core/src/parsers/template/AttributeAndTextPlugin.ts:159-164 | once a handler has thrown, no handler changes the element again |
| `AttributeHandlers.EventNamePrefixed` | packages/core/src/parsers/template/AttributeAndTextPlugin.ts:153-165 | `bind:x`, `catch:x`, `bindx` or `catchx` outside the table becomes `on` followed by x with its first letter upper-cased |
| `AttributeHandlers.EventNameShort` | packages/core/src/parsers/template/AttributeAndTextPlugin.ts:159-164 | a key that is all prefix leaves a name too short for its third character to be upper-cased: the handler throws |
| `AttributeHandlers.EventErrorRecorded` | packages/core/src/parsers/template/AttributeAndTextPlugin.ts:159-164 | the thrown error is recorded on the element and the attribute is dropped |
| `AttributeHandlers.EventNameBarePrefix` | packages/core/src/parsers/template/AttributeAndTextPlugin.ts:159-164 | each bare prefix throws |
| `AttributeHandlers.NoEventPrefix` | packages/core/src/parsers/template/AttributeAndTextPlugin.ts:153 | a key starting with neither `b` nor `c` is no event |
| `AttributeHandlers.EventValuePlain` | packages/core/src/parsers/template/AttributeAndTextPlugin.ts:166-183 | a plain handler name is quoted inside `wmrt.event` and the attribute goes out unquoted |
| `AttributeHandlers.KeyValueCases` | packages/core/src/parsers/template/AttributeAndTextPlugin.ts:223-238 | `*this` is the item itself, the index name is the index, any other value is a field of the item, and no value is the index |
| `AttributeHandlers.WxKeyVariable` | packages/core/src/parsers/template/AttributeAndTextPlugin.ts:206-252 | `wx:key` is resolved against the item and index names recorded so far, stored as the loop's key, and emitted as `key={ k }` |
| `AttributeHandlers.WxKeyResolved` | packages/core/src/parsers/template/AttributeAndTextPlugin.ts:194-252 | the `attribute` hook hands `wx:key` to the variable handler and gives its result |
| `AttributeHandlers.HandledByVariables` | packages/core/src/parsers/template/AttributeAndTextPlugin.ts:194-254 | an attribute the first two handlers decline and the third answers is the third's |
| `AttributeHandlers.StaticClassMatchesRuntime` | packages/core/src/parsers/template/AttributeAndTextPlugin.ts:639-652 | with isolation on, a static class list is scoped at compile time exactly as `wmrt.cn` scopes it at run time |
| `AttributeHandlers.ClassScoped` | packages/core/src/parsers/template/AttributeAndTextPlugin.ts:278-289 | `class` becomes `className`, each token suffixed with `__<module>` when styles are isolated |
| `AttributeHandlers.IdNotScoped` | packages/core/src/parsers/template/AttributeAndTextPlugin.ts:278-289 | `id` is never scoped |
| `AttributeHandlers.UnscopedAsWritten` | packages/core/src/parsers/template/AttributeAndTextPlugin.ts:641-651 | an unscoped static value without stray spaces is emitted as written |
| `AttributeHandlers.WrappedIsMustache` | packages/core/src/parsers/template/AttributeAndTextPlugin.ts:102 | `{{e}}` is a binding when e has no `}` and no line break |
| `AttributeHandlers.StyleOneDeclaration` | packages/core/src/parsers/template/AttributeAndTextPlugin.ts:431-562 | one plain declaration `k:v` followed by `; ` becomes `{{"k": "v"}}`: the segment without `:` is dropped |
| `AttributeHandlers.StyleItemPlain` | packages/core/src/parsers/template/AttributeAndTextPlugin.ts:492-543 | a plain declaration becomes `"k": "v"` |
| `AttributeHandlers.StyleItemKeyed` | packages/core/src/parsers/template/AttributeAndTextPlugin.ts:492-543 | a plain declaration `k:v` becomes `"K": "v"`, where K is k camel-cased when it has a `-` and does not start with `--` |
| `AttributeHandlers.FilterMapAppend` | packages/core/src/parsers/template/AttributeAndTextPlugin.ts:550-559 | filtering out the absent results and mapping the rest distributes over concatenation, so results stay in segment order |
| `AttributeHandlers.FilterMapAll` | packages/core/src/parsers/template/AttributeAndTextPlugin.ts:550-559 | when every segment has a result, the filter keeps them all, one per segment |
| `AttributeHandlers.StyleItemsFilterMap` | packages/core/src/parsers/template/AttributeAndTextPlugin.ts:471-559 | the per-segment formatting is the `map` followed by the `filter(item => !!item)` |
| `AttributeHandlers.StyleItemsAppend` | packages/core/src/parsers/template/AttributeAndTextPlugin.ts:447-559 | the segments are formatted one by one, their entries kept in segment order |
| `AttributeHandlers.StyleSegmentDropped` | packages/core/src/parsers/template/AttributeAndTextPlugin.ts:544-547 | a segment without `:` contributes no entry, wherever it stands |
| `AttributeHandlers.StyleItemsOfDeclarations` | packages/core/src/parsers/template/AttributeAndTextPlugin.ts:471-559 | plain declarations give one entry each, in order, under their camel-cased keys |
| `AttributeHandlers.StyleDeclarations` | packages/core/src/parsers/template/AttributeAndTextPlugin.ts:431-562 | a style `k1:v1;…;kn:vn` of plain declarations becomes `{{` + the entries `"Ki": "vi"` joined by `,` + `}}`, in order, keys camel-cased unless custom properties |
| `AttributeHandlers.IsUnderScopeFor` | packages/core/src/parsers/template/AttributeAndTextPlugin.ts:820-835 | the walk up through the parents answers whether a `for` on one of them binds the name |
| `AttributeHandlers.BindsHere` | packages/core/src/parsers/template/AttributeAndTextPlugin.ts:823-831 | one step: whether this collector's `for` binds the name's first segment |
| `AttributeHandlers.ForBindsItem` | packages/core/src/parsers/template/AttributeAndTextPlugin.ts:129-133 | once `wx:for` is handled, its item and index, and member paths under them, are bound for the element |
| `AttributeHandlers.AddReferencedData` | packages/core/src/parsers/template/AttributeAndTextPlugin.ts:758-773 | every collected name that is neither `undefined` nor bound by an enclosing `for` is added to the referenced data |
| `AttributeHandlers.ReferencedAreIdentifiers` | packages/core/src/parsers/template/AttributeAndTextPlugin.ts:758-773 | what one binding adds is among the identifiers written in it, and never `undefined` |
| `AttributesPlugin.AttributeMap.constructor` | packages/core/src/parsers/template/AttributesPlugin.ts:19 | the mutable attribute object holds the element's attributes |
| `AttributesPlugin.FormatAttribute` | packages/core/src/parsers/template/AttributesPlugin.ts:73-77 | no hook result, or one asking for removal, renders as the empty string |
| `AttributesPlugin.FormatAttributeReadsBack` | packages/core/src/parsers/template/AttributesPlugin.ts:76-79 | a kept attribute reads back as its name, `=`, and its value, in double quotes unless the handler asked for none |
| `AttributesPlugin.GetDisplayPlain` | packages/core/src/parsers/template/AttributesPlugin.ts:114-116 | a `hidden` value without `{{` is used whole in the `? "none" : ""` expression |
| `AttributesPlugin.GetDisplayFirstMustache` | packages/core/src/parsers/template/AttributesPlugin.ts:104-113 | only the first `{{exp}}` becomes `exp ? "none" : ""`; text before it and everything after its closing braces is kept |
| `AttributesPlugin.MergeStyleAppends` | packages/core/src/parsers/template/AttributesPlugin.ts:119-123 | splitting on `;` and re-joining leaves the style as it was, so the merge appends `;display: {{…}}` |
| `AttributesPlugin.MergeStyleSegments` | packages/core/src/parsers/template/AttributesPlugin.ts:119-123 | the merged style's segments are the old ones followed by the display segment |
| `AttributesPlugin.ResolveHidden` | packages/core/src/parsers/template/AttributesPlugin.ts:87-102 | the attribute object after the call is the specified `hidden` resolution of the old one |
| `AttributesPlugin.FormatAttributes` | packages/core/src/parsers/template/AttributesPlugin.ts:36-60 | prepares the attributes in place, then returns the rendered attributes in ranked order joined by single spaces, threading the element state through the hook |
| `AttributesPlugin.Prepare` | packages/core/src/parsers/template/AttributesPlugin.ts:41-49 | the in-place part: `hidden` resolved and a missing loop key added |
| `AttributesPlugin.RenderAttributes` | packages/core/src/parsers/template/AttributesPlugin.ts:50-59 | renders the ranked keys through the hook and joins them by spaces |
| `AttributesPlugin.FormatAllSnoc` | packages/core/src/parsers/template/AttributesPlugin.ts:51-58 | one more ranked key appends its rendered attribute and advances the element state |
| `AttributesPlugin.FormatAllParts` | packages/core/src/parsers/template/AttributesPlugin.ts:51-59 | the content has one part per attribute, empty ones included |
| `AttributesPlugin.HiddenAlwaysDeleted` | packages/core/src/parsers/template/AttributesPlugin.ts:100-101 | `hidden` never survives the pass |
| `AttributesPlugin.HiddenCreatesStyle` | packages/core/src/parsers/template/AttributesPlugin.ts:97-99 | without a `style` attribute, `hidden` creates one holding the display expression |
| `AttributesPlugin.DisplayStyleWins` | packages/core/src/parsers/template/AttributesPlugin.ts:88-91 | a style that already mentions `display` is left as it was |
| `AttributesPlugin.StyleGetsDisplay` | packages/core/src/parsers/template/AttributesPlugin.ts:91-96 | a style without `display` gets the display declaration appended |
| `AttributesPlugin.LoopGetsKey` | packages/core/src/parsers/template/AttributesPlugin.ts:47-49 | a loop without a key gets an empty `wx:key`; an existing key is kept |
| `CollectThisData.CollectedAreIdentifiers` | packages/core/src/parsers/template/collectThisData.ts:44-138 | every name the walk collects is an identifier written in the expression: the walk invents nothing |
| `CollectThisData.CollectedAllAreIdentifiers` | packages/core/src/parsers/template/collectThisData.ts:111-131 | the same for the children walked by `forEach` |
| `CollectThisData.IgnoredPositions` | packages/core/src/parsers/template/collectThisData.ts:58-77 | callees, object property keys, and the property of a member access (unless computed on an identifier) are never looked into |
| `CollectThisData.CollectAllParentFree` | packages/core/src/parsers/template/collectThisData.ts:116-118 | the names collected from a child list do not depend on the node that holds it |
| `CollectThisData.CallCollectsArguments` | packages/core/src/parsers/template/collectThisData.ts:111-120 | a call is collected argument by argument, in order |
| `Compilation.ExtensionFrom` | packages/core/src/Compilation.ts:160 | the match, when found, is the text after a `.` at or after the start, with no line terminator in it |
| `Compilation.ExtensionFromAfterDot` | packages/core/src/Compilation.ts:160-166 | a `.` followed by text without `.` or line terminator gives that text |
| `Compilation.ExtensionAfterFirstDot` | packages/core/src/Compilation.ts:160-166 | the bucket is everything after the first `.` of the path, later dots included |
| `Compilation.NoDotNoExtension` | packages/core/src/Compilation.ts:160-163 | a path without `.` has no bucket |
| `Compilation.Compilation.constructor` | packages/core/src/Compilation.ts:67-88 | a new compilation has an empty context, no assets of its own and fresh hooks |
| `Compilation.Compilation.AddAsset` | packages/core/src/Compilation.ts:155-174 | the compiler's map keeps the first asset of a path; the asset goes into its extension's bucket, which is created unless `noImport` is set |
| `Compilation.AppendNewKey` | packages/core/src/Compilation.ts:156-158 | adding an absent path keeps the keys distinct and the other entries as they were |
| `Compilation.FirstFailure` | packages/core/src/Compilation.ts:90-142 | the position found is that of a failing stage with none failing before it, or the end |
| `Compilation.Compilation.Compile` | packages/core/src/Compilation.ts:90-142 | `compile` runs the stages in order up to the first failure and reports as its stage's handling says |
| `Compilation.FirstFailureIs` | packages/core/src/Compilation.ts:90-142 | a failing stage preceded only by succeeding ones is the first failure |
| `Compilation.CallbackAtMostOnce` | packages/core/src/Compilation.ts:90-142 | the callback fires at most once, `fail` at most once and only along with it, and `complete` and `fail` exclude each other |
| `Compilation.StagesInOrder` | packages/core/src/Compilation.ts:90-142 | the stages run in their fixed order, every stage before the last one called having succeeded |
| `Compilation.CompleteIffAllSucceed` | packages/core/src/Compilation.ts:134-135 | `complete` is called exactly when every stage succeeds, and then the callback fires once and `fail` never |
| `Compilation.ReportedFailure` | packages/core/src/Compilation.ts:91-132 | an error in `initialize`, `parseTemplate` or `processAssets` calls `fail` and the callback once each, and nothing later runs |
| `Compilation.SilentRejection` | packages/core/src/Compilation.ts:116-122 | a rejection in the promise stages calls neither `fail` nor the callback |
| `Compilation.ProcessingErrorLosesCallback` | packages/core/src/Compilation.ts:120 | when `collectionComplete` rejects, the callback never fires |
| `Compilation.MakeCompletesIffNoSilentEnd` | packages/core/src/plugins/compiler/ComponentCompilerDistributionPlugin.ts:19-26 | `make` completes exactly when no compilation ends silently |
| `Compilation.ProcessingErrorStallsBuild` | packages/core/src/plugins/compiler/ComponentCompilerDistributionPlugin.ts:22-26 | one compilation whose `collectionComplete` rejects keeps `make` from completing |
| `Compiler.Coerce` | packages/core/src/compiler.ts:187-189 | `!!flag` holds exactly when the optional flag is present and `true` |
| `Compiler.SelectionCases` | packages/core/src/compiler.ts:249-259 | the library plugin set needs both flags, the design flag alone gives the component set, no design flag registers nothing; the template parser is registered exactly for the component set |
| `Compiler.AppliedNamesMembers` | packages/core/src/compiler.ts:261-269 | a plugin is applied exactly when a plugin of that name in the list has an `apply` function |
| `Compiler.AllApplied` | packages/core/src/compiler.ts:261-269 | when every plugin has `apply`, all are applied, in list order |
| `Compiler.ShippedSetsFullyApplied` | packages/core/src/plugins/design.ts:12-19 | both shipped plugin lists are tapped in completely and in order |
| `Compiler.Compiler.constructor` | packages/core/src/compiler.ts:183-192 | the options and the three coerced flags are stored, `conditionDefinitions` is `['H5']`, and the `init` state holds |
| `Compiler.Compiler.Init` | packages/core/src/compiler.ts:221-234 | empty context, assets and statistics, and the selected plugins tapped into fresh hooks; the flags are kept |
| `Compiler.Compiler.RegisterPlugins` | packages/core/src/compiler.ts:249-269 | the applied list grows by exactly the selected plugins that have `apply`, in list order |
| `Compiler.Compiler.Run` | packages/core/src/compiler.ts:197-204 | a failing `initialize` stops after itself; otherwise the build stages follow, all of them when `make` completes and only up to `make` when it does not |
| `Compiler.Compiler.Build` | packages/core/src/compiler.ts:236-247 | the stages are a prefix of the build order that reaches `make`; all of them exactly when every `make` tap calls back, otherwise the build stops in `make` |
| `Compiler.Compiler.Rebuild` | packages/core/src/compiler.ts:210-213 | re-initialises (same `init` state, flags kept) and then runs, with the traces of `Run` |
| `ComponentEntry.MatchName` | packages/core/src/plugins/compiler/ComponentCompilerEntryPlugin.ts:52-59 | an empty match gives no module |
| `ComponentEntry.MatchNameIsParentDirectory` | packages/core/src/plugins/compiler/ComponentCompilerEntryPlugin.ts:61-62 | a match `dir/file` below some directories is named after `dir`, camel-cased |
| `ComponentEntry.MatchNameOfJoin` | packages/core/src/plugins/compiler/ComponentCompilerEntryPlugin.ts:53-62 | a path of two or more segments is named after the one before the last |
| `ComponentEntry.MatchNameOfSplit` | packages/core/src/plugins/compiler/ComponentCompilerEntryPlugin.ts:53-62 | the same, stated on the split of the match |
| `ComponentEntry.GetJsonConfig` | packages/core/src/plugins/compiler/ComponentCompilerEntryPlugin.ts:144-165 | the parsed config when it can be read and parsed; otherwise a component that uses nothing, marked as an error |
| `ComponentEntry.ModuleForFields` | packages/core/src/plugins/compiler/ComponentCompilerEntryPlugin.ts:101-131 | a module is a component exactly when its config says so, and an unreadable config makes it one; its script is the `.js` beside the `.wxml`, or else the `.ts`; it keeps its name and lists the `*.wxs` files of its directory |
| `ComponentEntry.DependencyTarget` | packages/core/src/plugins/compiler/ComponentCompilerEntryPlugin.ts:190-215 | a resolved `usingComponents` target always exists, and npm paths are never resolved here |
| `ComponentEntry.DirectFileFirst` | packages/core/src/plugins/compiler/ComponentCompilerEntryPlugin.ts:198-209 | `<path>.wxml` wins over `<path>/index.wxml`, which is taken only when the direct file is missing; relative paths are taken beside the module |
| `ComponentEntry.GrownTransitive` | packages/core/src/plugins/compiler/ComponentCompilerEntryPlugin.ts:133 | growth of the module map (no key lost, earlier modules kept apart from their issuers) composes |
| `ComponentEntry.EntryPlugin.constructor` | packages/core/src/plugins/compiler/ComponentCompilerEntryPlugin.ts:39-41 | the plugin starts with an empty module map |
| `ComponentEntry.EntryPlugin.EntryDependency` | packages/core/src/plugins/compiler/ComponentCompilerEntryPlugin.ts:25-85 | the map handed to the compiler holds every matched `.wxml` whose config exists |
| `ComponentEntry.EntryPlugin.GenModuleSync` | packages/core/src/plugins/compiler/ComponentCompilerEntryPlugin.ts:90-142 | a module already filed or without a config is left alone and the map unchanged; otherwise it is filed under its path with the specified fields and its includes come from its `usingComponents`; the map only grows |
| `ComponentEntry.EntryPlugin.GenDepComponents` | packages/core/src/plugins/compiler/ComponentCompilerEntryPlugin.ts:175-250 | the parent's `includeComponentsMap` is replaced by the newly built used components, each imported by default from its `usingComponents` path; no `usingComponents` gives an empty map; the parent's other fields are kept and its issuers only grow |
| `ComponentEntry.EntryPlugin.VisitDependency` | packages/core/src/plugins/compiler/ComponentCompilerEntryPlugin.ts:190-236 | one entry: a missing or npm target changes nothing; an already filed target gains the parent as issuer; a new target is built and, when it has a config, recorded in the includes under the camel-cased tag |
| `DependencyCollector.CollectOne` | packages/core/src/DependencyCollector.ts:113-137 | collecting a file never replaces a claim made earlier and claims only keys of the finite file system |
| `DependencyCollector.CollectAll` | packages/core/src/DependencyCollector.ts:131-136 | the same for a list of files collected in order |
| `DependencyCollector.CollectOneClaims` | packages/core/src/DependencyCollector.ts:118-136 | an unclaimed file claims its key first, then its dependencies are collected |
| `DependencyCollector.CollectAllStep` | packages/core/src/DependencyCollector.ts:131-136 | each further file continues from the claims the files before it left |
| `DependencyCollector.CollectOneSpec` | packages/core/src/DependencyCollector.ts:113-137 | a collection keeps every file under its own key and each key once, claims the file it is handed and the dependencies of every file it claims, and claims only files reached from it |
| `DependencyCollector.CollectAllSpec` | packages/core/src/DependencyCollector.ts:105-111 | the same for a list of base files |
| `DependencyCollector.MissingStageYieldsUndefined` | packages/core/src/DependencyCollector.ts:174-187 | a file type without a `transform` or `transformToString` hook hands `undefined`, not the content, to the next stage |
| `DependencyCollector.Errors` | packages/core/src/DependencyCollector.ts:156-168 | there is no error exactly when every file was processed |
| `DependencyCollector.ErrorsSnoc` | packages/core/src/DependencyCollector.ts:158-166 | one more file adds its error, if any, at the end |
| `DependencyCollector.Files` | packages/core/src/DependencyCollector.ts:81-87 | the files to process are the claimed files, in claiming order |
| `DependencyCollector.FilesDistinct` | packages/core/src/DependencyCollector.ts:83-87 | well-keyed claims list each file once, as the `Set` of the map's values does |
| `DependencyCollector.Collector.constructor` | packages/core/src/DependencyCollector.ts:26-51 | a new collector is not collecting, has no error and no state |
| `DependencyCollector.Collector.EnsureCollectState` | packages/core/src/DependencyCollector.ts:94-103 | an empty state is created when there is none; an existing one is kept |
| `DependencyCollector.Collector.CollectFileDependencies` | packages/core/src/DependencyCollector.ts:113-137 | the state becomes the specified collection of the pending file |
| `DependencyCollector.Collector.CollectEachDependency` | packages/core/src/DependencyCollector.ts:131-136 | the state becomes the collection of the dependencies, in order |
| `DependencyCollector.Collector.CollectDependencies` | packages/core/src/DependencyCollector.ts:105-111 | no base file leaves the state alone; otherwise each base file is collected in turn |
| `DependencyCollector.Collector.CollectionStart` | packages/core/src/DependencyCollector.ts:30-35 | the flags are reset; without a script nothing is collected; with one, the closure of the script's dependencies is collected, and the script itself only when a dependency leads back to it |
| `DependencyCollector.Collector.CollectionComplete` | packages/core/src/DependencyCollector.ts:38-50 | an error only records that collecting failed; otherwise every claimed file is processed in claiming order, and the failures are gathered into one error |
| `DependencyCollector.RootFile` | packages/core/src/DependencyCollector.ts:61-68 | the root is the script resolved as a `js` file, with `meta.component` set |
| `DependencyCollector.ProcessFiles` | packages/core/src/DependencyCollector.ts:155-172 | every file is processed whatever happens to the others; the call fails exactly when some file failed, with all their errors joined |
| `DependencyCollector.CollectionFromScript` | packages/core/src/DependencyCollector.ts:53-78 | a complete collection from a script gathers exactly the closure of its dependencies, each file under its own key and so processed once |
| `Directives.FindIndex` | packages/core/src/parsers/template/directive.ts:95-97 | `findIndex` returns the first entry carrying the key, or -1 when none does |
| `Directives.ElifRunStart` | packages/core/src/parsers/template/directive.ts:100-107 | the backward walk stops at the start of the maximal run of `elif` entries ending just before the element |
| `Directives.SiblingsConditionsWithoutKey` | packages/core/src/parsers/template/directive.ts:91-94 | an element without a key is governed by the parent's whole condition list |
| `Directives.SiblingsConditionsShape` | packages/core/src/parsers/template/directive.ts:98-111 | for an entry at position p > 0 the governing conditions are the `elif` run just before p, behind the `if` before that run when there is one |
| `Directives.SiblingsConditionsFirst` | packages/core/src/parsers/template/directive.ts:98-113 | an entry at the front of the list, or not in it, has no governing conditions |
| `Directives.Directive.constructor` | packages/core/src/parsers/template/directive.ts:26-39 | a new directive keeps its arguments and starts with the tag text as its result |
| `Directives.Directive.GetSiblingsConditions` | packages/core/src/parsers/template/directive.ts:84-114 | the `unshift` loop returns exactly the specification's governing conditions |
| `Directives.Directive.IfDirective` | packages/core/src/parsers/template/directive.ts:47-49 | the element is guarded by the double negation of its condition; nothing but the result changes |
| `Directives.Directive.ElifDirective` | packages/core/src/parsers/template/directive.ts:51-56 | the element is guarded by the negation of the first governing `if` and by its own condition |
| `Directives.Directive.ElseDirective` | packages/core/src/parsers/template/directive.ts:58-65 | an `else` without a condition takes the negated governing conditions, joined by `&&`, as its condition; one with a condition keeps it |
| `Directives.Directive.ForDirective` | packages/core/src/parsers/template/directive.ts:67-71 | the element is mapped over the list with the item and index names, `item` and `index` by default |
| `Directives.Directive.ForWithIfDirective` | packages/core/src/parsers/template/directive.ts:73-82 | the loop body is guarded by the `if` half and wrapped in a keyed fragment |
| `Directives.Directive.Parse` | packages/core/src/parsers/template/directive.ts:41-45 | dispatch on the directive name gives the per-directive result; an unknown name leaves the tag text |
| `Directives.RunDirective` | packages/core/src/parsers/template/directive.ts:117-127 | `directive` returns the parsed result of a fresh directive |
| `Directives.IfElseComplement` | packages/core/src/parsers/template/directive.ts:47-65 | an `if a` element is rendered under `!!(a)` and the condition-less `else` after it under `!(a)`: exactly one of the two is rendered |
| `Directives.UnknownDirectiveKeepsTag` | packages/core/src/parsers/template/directive.ts:41-45 | an unknown directive leaves the element's text unchanged |
| `Directives.ConsecutiveElifsNotExclusive` | packages/core/src/parsers/template/directive.ts:51-56 | in `if a / elif b / elif c` the second `elif` is guarded by `!(a)` and `c` only, so it is not exclusive with the first `elif` |
| `Directives.ElifWithoutIf` | packages/core/src/parsers/template/directive.ts:51-56 | an `elif` with no governing `if` is guarded by `(undefined)` |
| `Directives.ElseAfterChain` | packages/core/src/parsers/template/directive.ts:58-65 | an `else` after `if a / elif b` is guarded by `!(a) && !(b)` |
| `Directives.ElseWithoutCondition` | packages/core/src/parsers/template/directive.ts:59-64 | a condition-less `else` renders under the joined negations of its governing conditions |
| `DirectivesPlugin.LoopOptions` | packages/core/src/parsers/template/DirectivesPlugin.ts:26-35 | loop options exist exactly when `for` is among the element's directives |
| `DirectivesPlugin.ApplyDirectives` | packages/core/src/parsers/template/DirectivesPlugin.ts:13-60 | the handler returns the element's text wrapped by each of its directives in turn, and the collector gains the `forWithIf` entry when `for` and `if` meet |
| `DirectivesPlugin.MergeForWithIf` | packages/core/src/parsers/template/DirectivesPlugin.ts:43-53 | the `unshift`/`splice` steps give the specified directive order and record |
| `DirectivesPlugin.Reduce` | packages/core/src/parsers/template/DirectivesPlugin.ts:55-57 | the reduce wraps the text by each directive in order, as the fold specifies |
| `DirectivesPlugin.NoDirectivesKeepsText` | packages/core/src/parsers/template/DirectivesPlugin.ts:14-21 | with no collector or no directives the text is returned unchanged |
| `DirectivesPlugin.ForAndIfMerge` | packages/core/src/parsers/template/DirectivesPlugin.ts:37-53 | `for` and `if` on one element are applied as one leading `forWithIf` and never separately; the other directives keep their order |
| `DirectivesPlugin.ForAndIfMergeLength` | packages/core/src/parsers/template/DirectivesPlugin.ts:43-53 | the merge removes exactly two names and adds one |
| `DirectivesPlugin.MergedRecordsPair` | packages/core/src/parsers/template/DirectivesPlugin.ts:45-48 | the record gains the `[for, if]` pair under `forWithIf`; every other entry is unchanged |
| `DirectivesPlugin.LoopOptionsDefaults` | packages/core/src/parsers/template/DirectivesPlugin.ts:27-35 | with `for`, item and index default to `item` and `index`, and the key defaults to the index name |
| `DirectivesPlugin.FoldSnoc` | packages/core/src/parsers/template/DirectivesPlugin.ts:55-57 | each further directive wraps the text produced so far |
| `DirectivesPlugin.SingleIf` | packages/core/src/parsers/template/DirectivesPlugin.ts:55-57 | a lone `if` gives exactly the `if` wrapper around the text |
| `EmitAssets.AssetValues` | packages/core/src/plugins/compiler/CompilerEmitAssetsPlugin.ts:13 | the assets are visited in the map's insertion order |
| `EmitAssets.Emitted` | packages/core/src/plugins/compiler/CompilerEmitAssetsPlugin.ts:13-21 | the loop writes no more assets than there are |
| `EmitAssets.EmittedExactlyOnce` | packages/core/src/plugins/compiler/CompilerEmitAssetsPlugin.ts:13-21 | every asset that does not fail is written exactly as often as it is registered, and nothing else is written |
| `EmitAssets.FirstError` | packages/core/src/plugins/compiler/CompilerEmitAssetsPlugin.ts:22-24 | the callback receives no error exactly when every write succeeds, and otherwise the error of one of the writes |
| `EmitAssets.EmitAssets` | packages/core/src/plugins/compiler/CompilerEmitAssetsPlugin.ts:9-26 | the loop writes exactly the assets that do not fail, in the map's order, and calls back with the first failed write's error |
| `EmitAssets.NoFailuresEmitsAll` | packages/core/src/plugins/compiler/CompilerEmitAssetsPlugin.ts:30-33 | with no recorded failures (absent or empty) every asset is written |
| `EmitAssets.SiblingDirectorySkipped` | packages/core/src/plugins/compiler/CompilerEmitAssetsPlugin.ts:34-36 | the prefix test is on strings: an asset in a sibling directory whose name extends a failed module's directory is skipped too |
| `EmitAssets.EmittedPartition` | packages/core/src/plugins/compiler/CompilerEmitAssetsPlugin.ts:13-21 | an asset is skipped exactly when a failed module's base path is a prefix of its path, and the skipped and written assets make up all of them |
| `FileResolver.BuildLoadResult` | packages/core/src/FileResolver.ts:71-78 | a built result is tagged, carries the content, and has source `null` exactly when none (or `undefined`/`null`) is given |
| `FileResolver.LoadFileSourceAndContent` | packages/core/src/FileResolver.ts:119-127 | a tagged loader result is returned as it is; anything else, `undefined` from a missing loader included, is wrapped as content with source `null` |
| `FileResolver.ResolveFile` | packages/core/src/FileResolver.ts:87-117 | the file has the normalised path, its type and empty metadata; content and source are loaded only for a file with a type |
| `FileResolver.SplitNpmPath` | packages/core/src/FileResolver.ts:136-151 | the segment split fails exactly when the path has fewer than three segments, where the source reads `startsWith` of `undefined` |
| `FileResolver.NpmPathSplit` | packages/core/src/FileResolver.ts:145-151 | `/miniprogram_npm/@scope/pkg/rest` names the package `@scope/pkg` and `/miniprogram_npm/pkg/rest` the package `pkg`; the rest is the path inside it |
| `FileResolver.SplitScopedPackage` | packages/core/src/FileResolver.ts:145-147 | a scoped package takes two segments |
| `FileResolver.SplitPlainPackage` | packages/core/src/FileResolver.ts:148-151 | any other package takes one |
| `FileResolver.ResolveEntry` | packages/core/src/FileResolver.ts:129-180 | it fails only on a short `/miniprogram_npm` path, or when the package's manifest resolves but cannot be read as JSON; a path the npm pattern does not match is resolved as given; one it matches is tried as `./path` first, and for a script once more as given |
| `FileResolver.NpmEntry` | packages/core/src/FileResolver.ts:153-169 | a package whose manifest resolves is looked up beside the manifest, inside its `miniprogram` directory when it names one; a manifest that cannot be read rejects the entry with the read's error; a package whose manifest does not resolve falls through to the general rules |
| `JsxGenerator.Program.constructor` | packages/core/src/plugins/generator/JsxGeneratorPlugin.ts:449 | a program holds the statements of its body |
| `JsxGenerator.Constructors` | packages/core/src/plugins/generator/JsxGeneratorPlugin.ts:451-458 | the constructor calls of a body are no more than its statements |
| `JsxGenerator.OuterNodes` | packages/core/src/plugins/generator/JsxGeneratorPlugin.ts:451-458 | the other statements are no more than the body's |
| `JsxGenerator.SpliceOuterNodes` | packages/core/src/plugins/generator/JsxGeneratorPlugin.ts:448-460 | the `splice(i, 1)`/`i--` loop leaves exactly the `Component`/`Page`/`App` calls in the body and returns the other statements, each in its order |
| `JsxGenerator.SplicePartition` | packages/core/src/plugins/generator/JsxGeneratorPlugin.ts:448-460 | the split is a partition: constructor calls on one side, everything else on the other, each statement once |
| `JsxGenerator.FirstNonImport` | packages/core/src/plugins/generator/JsxGeneratorPlugin.ts:464-466 | the insertion point is the first statement that is not an import; none when every statement is one |
| `JsxGenerator.InsertOuterNodes` | packages/core/src/plugins/generator/JsxGeneratorPlugin.ts:462-470 | the outer nodes go in before the first non-import statement; a body of imports only is left as it is |
| `JsxGenerator.InsertedLayout` | packages/core/src/plugins/generator/JsxGeneratorPlugin.ts:462-470 | the insertion keeps the leading imports in front and the rest of the body behind, and taking the outer nodes out gives the body back |
| `JsxGenerator.EmittedBefore` | packages/core/src/plugins/generator/JsxGeneratorPlugin.ts:60-123 | no more statements are put in than there are steps |
| `JsxGenerator.FirstFailureSpec` | packages/core/src/plugins/generator/JsxGeneratorPlugin.ts:60-123 | a run throws exactly when one of its steps throws, then with the first throw's message and after the statements before it |
| `JsxGenerator.RunAppend` | packages/core/src/plugins/generator/JsxGeneratorPlugin.ts:60-123 | a run that throws ends there; one that does not is followed by the next |
| `JsxGenerator.Reverse` | packages/core/src/plugins/generator/JsxGeneratorPlugin.ts:75 | unshifting a run of statements keeps their number |
| `JsxGenerator.ReverseReverse` | packages/core/src/plugins/generator/JsxGeneratorPlugin.ts:75 | unshifting reverses: reversing twice gives the iteration order back |
| `JsxGenerator.ConcatSplit` | packages/core/src/plugins/generator/JsxGeneratorPlugin.ts:67-122 | a loop's steps split where its elements split |
| `JsxGenerator.ConcatNoFailure` | packages/core/src/plugins/generator/JsxGeneratorPlugin.ts:67-122 | a loop none of whose elements throws does not throw |
| `JsxGenerator.CommonImportDeclarationAdd` | packages/core/src/plugins/generator/JsxGeneratorPlugin.ts:60-123 | the body starts with every import put in, last first, before the old body; the call throws with the first failing step's error |
| `JsxGenerator.WxsFailureStops` | packages/core/src/plugins/generator/JsxGeneratorPlugin.ts:67-76 | a throw among the WXS imports is the function's |
| `JsxGenerator.NoConfigStops` | packages/core/src/plugins/generator/JsxGeneratorPlugin.ts:80 | without a config the function throws right after the WXS imports |
| `JsxGenerator.ConfigComposed` | packages/core/src/plugins/generator/JsxGeneratorPlugin.ts:78-122 | with a config the four loops put in their imports one after the other |
| `JsxGenerator.AddWxsImports` | packages/core/src/plugins/generator/JsxGeneratorPlugin.ts:67-76 | the loop over the WXS modules unshifts a default import of `<importUrlH5>.js` per module with one, and throws on an unnamed one |
| `JsxGenerator.UnnamedStops` | packages/core/src/plugins/generator/JsxGeneratorPlugin.ts:71-73 | a WXS module without a name and with an H5 URL ends the loop |
| `JsxGenerator.AddH5Imports` | packages/core/src/plugins/generator/JsxGeneratorPlugin.ts:80-99 | the `h5Components` loop does not throw, unshifts the default imports and gathers the named ones by source |
| `JsxGenerator.AddIncludeImports` | packages/core/src/plugins/generator/JsxGeneratorPlugin.ts:100-115 | the used-components loop does not throw, unshifts the default imports and gathers the named ones by source |
| `JsxGenerator.AddLibraryImports` | packages/core/src/plugins/generator/JsxGeneratorPlugin.ts:117-122 | one named import per library is unshifted |
| `JsxGenerator.H5EntryCases` | packages/core/src/plugins/generator/JsxGeneratorPlugin.ts:82-98 | an H5 component with a `src` and default export gets a default import, `defaultExport` left out counting as `true`; an entry without `src`, or a bare string, adds nothing |
| `JsxGenerator.AddComponentSpec` | packages/core/src/plugins/generator/JsxGeneratorPlugin.ts:93-97 | adding a component to a library keeps one group per source and lists exactly one more pair |
| `JsxGenerator.AddComponentDistinct` | packages/core/src/plugins/generator/JsxGeneratorPlugin.ts:97 | a library's `Set` lists each name once |
| `JsxGenerator.H5LibrariesSpec` | packages/core/src/plugins/generator/JsxGeneratorPlugin.ts:80-99 | the H5 loop lists exactly the non-default H5 components, grouped by source |
| `JsxGenerator.IncludeLibrariesSpec` | packages/core/src/plugins/generator/JsxGeneratorPlugin.ts:100-115 | the used-components loop adds exactly the components imported by name, grouped by source |
| `JsxGenerator.LibrariesGrouped` | packages/core/src/plugins/generator/JsxGeneratorPlugin.ts:78-122 | the named imports are one per source, listing each non-default component once, and nothing else |
| `JsxGenerator.ImportFailures` | packages/core/src/plugins/generator/JsxGeneratorPlugin.ts:64-80 | with all WXS modules named, the function throws exactly when there is no config |
| `JsxGenerator.RenameClasses` | packages/core/src/plugins/generator/JsxGeneratorPlugin.ts:197-201 | every top-level class declaration is renamed to the capitalised module name, and no other top-level statement changes |
| `JsxGenerator.ClassRenamed` | packages/core/src/plugins/generator/JsxGeneratorPlugin.ts:197-201 | the new name is the module name with an ASCII lower-case first letter upper-cased, and the rename is idempotent |
| `LibraryEntry.Classify` | packages/core/src/plugins/compiler/LibraryCompilerEntryPlugin.ts:60-86 | a collected match has its resolved path, empty meta, and type `js`, `wxss` or `wxs` |
| `LibraryEntry.OfExtension` | packages/core/src/plugins/compiler/LibraryCompilerEntryPlugin.ts:61-85 | the same, for a file given by extension and path |
| `LibraryEntry.ClassifyCases` | packages/core/src/plugins/compiler/LibraryCompilerEntryPlugin.ts:61-86 | scripts are collected as `js` unless they are `.d.ts` declarations, stylesheets as `wxss` (never as `style`, the type the stylesheet loader is registered for), wxs files as `wxs`; any other extension is dropped |
| `LibraryEntry.ScriptCases` | packages/core/src/plugins/compiler/LibraryCompilerEntryPlugin.ts:63-69 | a `.ts` or `.js` file is collected, as `js`, exactly when it is not a declaration file |
| `LibraryEntry.OtherCases` | packages/core/src/plugins/compiler/LibraryCompilerEntryPlugin.ts:71-86 | `.wxss` and `.wxs` take their own types and other extensions are dropped |
| `LibraryEntry.LibraryModule` | packages/core/src/plugins/compiler/LibraryCompilerEntryPlugin.ts:29-42 | the one library compilation is for a nameless component that uses nothing and has no paths of its own, with styles isolated |
| `LibraryEntry.LibraryPlugin.constructor` | packages/core/src/plugins/compiler/LibraryCompilerEntryPlugin.ts:49-51 | the plugin starts with an empty collection |
| `LibraryEntry.LibraryPlugin.EntryDependency` | packages/core/src/plugins/compiler/LibraryCompilerEntryPlugin.ts:18-23 | the collection handed to the compiler holds a path exactly when a collected match resolves to it, each path once; every filed file has empty meta and is the classification of one of the matches |
| `LibraryEntry.LibraryPlugin.Make` | packages/core/src/plugins/compiler/LibraryCompilerEntryPlugin.ts:25-46 | the `make` tap creates one compilation for the library module and compiles it |
| `LibraryEntry.FileEntryStep` | packages/core/src/plugins/compiler/LibraryCompilerEntryPlugin.ts:99-103 | filing one more match keeps the collection exactly the entries of the matches so far |
| `LibraryEntry.CollectedBySnoc` | packages/core/src/plugins/compiler/LibraryCompilerEntryPlugin.ts:99-103 | one more match adds the path of its entry, if it has one, and nothing else |
| `LibraryEntry.FromMatchesStep` | packages/core/src/plugins/compiler/LibraryCompilerEntryPlugin.ts:99-103 | after filing one more match, every filed file is still the classification of some match so far |
| `LibraryEntry.FromMatchesClassified` | packages/core/src/plugins/compiler/LibraryCompilerEntryPlugin.ts:60-103 | a collection filed from the classification holds files with empty meta, each the classification of one match |
| `Modules.NewBaseModule` | packages/core/src/modules/BaseModule.ts:162-184 | a new module keeps its name, path and config, takes its directory as `basePath`, and starts with no included components and no issuers |
| `Modules.StyleIsolationDefault` | packages/core/src/modules/BaseModule.ts:176-183 | styles are isolated without a config, without `styleIsolation`, or with `isolated`; `shared` and `apply-shared` turn isolation off |
| `Modules.WxsPathListDefault` | packages/core/src/modules/BaseModule.ts:172 | an absent `wxsPathList` becomes the empty list; a given one is kept |
| `Modules.BasePathIsDirectory` | packages/core/src/modules/BaseModule.ts:166 | `basePath` is the directory that holds the module's `.wxml` |
| `Modules.NewWxmlTemplateModule` | packages/core/src/modules/WxmlTemplateModule.ts:32-41 | the component name is the camel-cased template name followed by `Template`, and the import URL is `./<componentName>.tsx` |
| `Modules.TemplateBesideModule` | packages/core/src/modules/WxmlTemplateModule.ts:40 | a template's `.tsx` lies in the same directory as the module's `.wxml` |
| `Modules.NewWxsModule` | packages/core/src/modules/WxsModule.ts:48-66 | a module is a copy exactly when it has a non-empty `src`, which is then its import URL; an inline one imports `./<name>.wxs`; the H5 URL drops a leading `/miniprogram_npm/` and is otherwise the import URL |
| `Modules.WxsContent` | packages/core/src/modules/WxsModule.ts:68-71 | only an inline module whose first child is text has content, and that content is the text |
| `Modules.InlineWxsBesideModule` | packages/core/src/modules/WxsModule.ts:57-59 | an inline module's source is `<name>.wxs` in the directory of the module's `.wxml` |
| `Mustache.CloseAt` | packages/core/src/parsers/template/AttributeAndTextPlugin.ts:64 | the lazy `.*?}}` ends within the text or not at all |
| `Mustache.CloseAtSpec` | packages/core/src/parsers/template/AttributeAndTextPlugin.ts:64 | the close found is the first `}}` after the opening, with no line terminator between |
| `Mustache.CloseAtNone` | packages/core/src/parsers/template/AttributeAndTextPlugin.ts:64 | no close is found exactly when every `}}` after the opening has a line terminator before it, so the lazy match never crosses a line break |
| `Mustache.MustacheFrom` | packages/core/src/parsers/template/AttributeAndTextPlugin.ts:64 | a binding found from a position opens at or after it and closes within the text |
| `Mustache.MustacheSkipsPrefix` | packages/core/src/parsers/template/AttributeAndTextPlugin.ts:64 | a binding opening where no `{{` precedes it is the first one |
| `Mustache.FirstMustacheLayout` | packages/core/src/parsers/template/AttributeAndTextPlugin.ts:64 | the first binding of `before{{exp}}after` is the written one |
| `Mustache.ReplaceOnlyOne` | packages/core/src/parsers/template/AttributeAndTextPlugin.ts:208-210 | a text whose only binding lies at one place is rewritten there alone |
| `Mustache.ReplaceWithoutMustache` | packages/core/src/parsers/template/AttributeAndTextPlugin.ts:207-211 | without a binding the global rewrite leaves the text as it was |
| `Mustache.ReplaceOneMustache` | packages/core/src/parsers/template/AttributeAndTextPlugin.ts:207-211 | a single binding `{{e}}` is rewritten to `open e close`, the text around it kept |
| `Paths.GetPathSwapsExtension` | packages/utils/src/path.ts:11-14 | a trailing `.wxml` is swapped for the extension; a path without one comes back unchanged |
| `Paths.MaybeNpmPathCases` | packages/utils/src/path.ts:3-23 | paths starting with `./`, `../` or `/`, drive-letter paths and non-strings are never npm paths; `@scope` names are |
| `Paths.NormalizeIdempotent` | packages/utils/src/path.ts:25 | the normaliser the project uses is idempotent |
| `Paths.NormalizeLower` | packages/utils/src/path.ts:29 | normalising commutes with lower-casing |
| `Paths.LowerCaseNormalizePathIdempotent` | packages/utils/src/path.ts:25-29 | a collector key is its own key |
| `Paths.LowerCaseNormalizePathIgnoresCase` | packages/utils/src/path.ts:27-29 | paths that differ only in letter case share one key |
| `Paths.ResolveBeside` | packages/core/src/modules/WxmlTemplateModule.ts:40 | resolving `'../'` then `'./' + name` from a normalised absolute file path names `name` in the file's directory |
| `Paths.DirnameOfFile` | packages/core/src/modules/BaseModule.ts:166 | the directory of a file path is everything before its last separator |
| `AttributeRanking.IndexOfKey` | packages/core/src/parsers/template/utils.ts:13 | `indexOf` returns the first position holding the key, or -1 exactly when the key is absent |
| `AttributeRanking.RemoveFirstMultiset` | packages/core/src/parsers/template/utils.ts:15 | splicing out the found key removes one copy of it and nothing else |
| `AttributeRanking.AttributePriorityRanking` | packages/core/src/parsers/template/utils.ts:8-23 | the loop over the copied keys returns the specification ranking (the priority keys taken group by group, then what is left) and leaves the input array alone |
| `AttributeRanking.RankedIsPermutation` | packages/core/src/parsers/template/utils.ts:8-23 | the ranking is a permutation of the input keys |
| `AttributeRanking.RankedShape` | packages/core/src/parsers/template/utils.ts:8-23 | for distinct keys the ranking is the priority keys present, in the order `wx:for`, `wx:for-item`, `wx:for-index`, `wx:key`, `wx:if`, followed by the other keys in their original relative order |
| `AttributeRanking.RankedIdempotent` | packages/core/src/parsers/template/utils.ts:8-23 | ranking an already ranked key list changes nothing |
| `AttributeRanking.RankedIgnoresPriorityOrder` | packages/core/src/parsers/template/utils.ts:8-23 | reordering only the priority keys of the input does not change the result |
| `ReplaceClassName.TraversePartNode` | packages/core/src/parsers/style/postcssReplaceClassNamePlugin.ts:44-58 | inside `::part` a selector stays a selector and only tags change |
| `ReplaceClassName.Unsuffix` | packages/core/src/parsers/style/postcssReplaceClassNamePlugin.ts:29-31 | stripping a suffix gives the name back or leaves it as it was |
| `ReplaceClassName.SuffixStripped` | packages/core/src/parsers/style/postcssReplaceClassNamePlugin.ts:30 | a suffixed name loses exactly its `__<component>` suffix |
| `ReplaceClassName.PartRoundTrip` | packages/core/src/parsers/style/postcssReplaceClassNamePlugin.ts:44-58 | stripping one suffix from each tag inside `::part` gives the part back |
| `ReplaceClassName.ScopeRoundTrip` | packages/core/src/parsers/style/postcssReplaceClassNamePlugin.ts:20-42 | nothing is lost by the rewrite: stripping one suffix from every name it reaches gives the selector back |
| `ReplaceClassName.PartUnscoped` | packages/core/src/parsers/style/postcssReplaceClassNamePlugin.ts:51-53 | an empty component name leaves a part as it is |
| `ReplaceClassName.EmptyNameUnchanged` | packages/core/src/parsers/style/postcssReplaceClassNamePlugin.ts:29-31 | without isolation every selector passes through as it is |
| `ReplaceClassName.EmptyNameKeepsStylesheet` | packages/core/src/parsers/style/postcssReplaceClassNamePlugin.ts:6-16 | without isolation the whole stylesheet passes through unchanged |
| `ReplaceClassName.PartScopes` | packages/core/src/parsers/style/postcssReplaceClassNamePlugin.ts:44-58 | with a component name every tag inside `::part` ends with `__<component>` |
| `ReplaceClassName.TraverseScopes` | packages/core/src/parsers/style/postcssReplaceClassNamePlugin.ts:20-42 | with a component name every class and id the selector pass reaches ends with `__<component>`, as does every tag inside `::part` |
| `ReplaceClassName.StylesheetScoped` | packages/core/src/parsers/style/postcssReplaceClassNamePlugin.ts:6-16 | with a component name every rule, nested in at-rules or not, comes out scoped |
| `ReplaceClassName.OtherPseudoUntouched` | packages/core/src/parsers/style/postcssReplaceClassNamePlugin.ts:34-39 | a pseudo other than `::part` is passed through as written, whatever it contains |
| `Runtime.CamelcaseAgrees` | packages/runtime/src/wmrt.js:1-8 | the runtime's own `camelcase` agrees with the shared utility on every input |
| `Runtime.CnCases` | packages/runtime/src/wmrt.js:74-90 | a number is stringified first, so `0` becomes `0__C`; other falsy values and values that are neither strings nor arrays come back unchanged |
| `Runtime.CnScopesEveryToken` | packages/runtime/src/wmrt.js:91-97 | splitting the result on spaces gives exactly the non-empty tokens, in order, each with `__<componentName>` |
| `Runtime.ScopeOneToken` | packages/runtime/src/wmrt.js:91-97 | a single class name gets exactly the suffix |
| `Runtime.CnOfArray` | packages/runtime/src/wmrt.js:83-97 | an array becomes its non-empty entries (`undefined`, `null` and `''` dropped), in order, each suffixed, joined by single spaces |
| `Runtime.StyleDeclaration` | packages/runtime/src/wmrt.js:56-68 | a declaration is read as the trimmed, camelcased key and the converted trimmed value; only the text up to a second `:` is the value |
| `Runtime.StyleSkipsEmptyKey` | packages/runtime/src/wmrt.js:57-58 | a segment with an empty key leaves the object unchanged |
| `Runtime.StyleTrailingSpaceThrows` | packages/runtime/src/wmrt.js:56-60 | as written, every style string ending in `"; "` throws: its last segment is a non-empty key with no value |
| `Runtime.StyleTolerantAgrees` | packages/runtime/src/wmrt.js:52-70 | the corrected `style` never throws on a string, and agrees with the original wherever that returns |
| `StyleParser.EscapeE` | packages/core/src/plugins/parser/StyleParserPlugin.ts:160 | escaping never shortens the text |
| `StyleParser.EscapedStart` | packages/core/src/plugins/parser/StyleParserPlugin.ts:160 | an escaped text never starts with a lone `\e` |
| `StyleParser.EscapeRoundTrip` | packages/core/src/plugins/parser/StyleParserPlugin.ts:160 | the escape loses nothing: undoing it gives the text back |
| `StyleParser.LoadStyle` | packages/core/src/plugins/parser/StyleParserPlugin.ts:143-168 | a missing file is an error; otherwise the filtered, escaped text is the content and the file as read is the source |
| `StyleParser.ResolveStyle` | packages/core/src/plugins/parser/StyleParserPlugin.ts:39-42 | resolving a stylesheet fails exactly when its normalised path is missing; otherwise it is a `style` file holding the loaded content |
| `StyleParser.UrlRun` | packages/core/src/constants.ts:19 | the `[^'"]+` run stops at the first quote |
| `StyleParser.MatchImport` | packages/core/src/constants.ts:19-21 | a match starts with `@import`, opens with a quote and captures a non-empty run without quotes |
| `StyleParser.ImportSources` | packages/core/src/plugins/parser/StyleParserPlugin.ts:65-66 | every gathered import source is non-empty |
| `StyleParser.NoAtSignNoImport` | packages/core/src/plugins/parser/StyleParserPlugin.ts:65-130 | text without `@` has no import to gather and none to comment out |
| `StyleParser.MatchOfImport` | packages/core/src/constants.ts:19-21 | `@import<spaces>"url"`, with either quote and any run of spaces, matches with `url` captured |
| `StyleParser.MatchImportAt` | packages/core/src/constants.ts:19-21 | the match is found from the positions of its parts |
| `StyleParser.ImportLineCommented` | packages/core/src/plugins/parser/StyleParserPlugin.ts:125-131 | an `@import` line becomes a comment naming it, its spaces reduced to one; the text after it is rewritten on |
| `StyleParser.ImportGathered` | packages/core/src/plugins/parser/StyleParserPlugin.ts:57-89 | an `@import`, with or without the closing `;`, is gathered as a dependency and the text after it searched on |
| `StyleParser.UnterminatedImportKept` | packages/core/src/plugins/parser/StyleParserPlugin.ts:128-130 | an `@import` without `;` is left as written by the line rewrite |
| `StyleParser.KeptWithoutLine` | packages/core/src/plugins/parser/StyleParserPlugin.ts:128-130 | text that is no `@import` line where it starts and has no `@` after that is left as it is |
| `StyleParser.NoSemicolonNoLine` | packages/core/src/constants.ts:21 | a statement that ends at its closing quote is no `@import` line |
| `StyleParser.ScriptStyleDependency` | packages/core/src/plugins/parser/StyleParserPlugin.ts:33-55 | only the component's root script brings in the module's stylesheet, which carries the script's metadata; a stylesheet that cannot be loaded rejects the tap |
| `StyleParser.ImportDependencies` | packages/core/src/plugins/parser/StyleParserPlugin.ts:64-88 | an empty or unresolved source adds nothing, a resolved one adds its stylesheet, and the tap fails exactly when some source fails |
| `StyleParser.StyleImportDependencies` | packages/core/src/plugins/parser/StyleParserPlugin.ts:57-62 | a file whose content is not text imports nothing |
| `StyleParser.NoImportNoDependency` | packages/core/src/plugins/parser/StyleParserPlugin.ts:57-89 | a stylesheet with no `@` brings in nothing |
| `StyleParser.Transform` | packages/core/src/plugins/parser/StyleParserPlugin.ts:170-180 | the transform keeps the number of top-level nodes |
| `StyleParser.TransformWithoutIsolation` | packages/core/src/plugins/parser/StyleParserPlugin.ts:171-173 | without style isolation only the lengths are rewritten |
| `StyleParser.AccumulatedLatestFirst` | packages/core/src/plugins/parser/StyleParserPlugin.ts:134-139 | stylesheets processed later come first in the accumulated text, each followed by a blank line |
| `StyleParser.AccumulatedSnoc` | packages/core/src/plugins/parser/StyleParserPlugin.ts:137 | one more `processFile` puts its content in front |
| `StyleParser.CssModuleContent` | packages/core/src/plugins/parser/StyleParserPlugin.ts:97 | the module text is a function of `rem` whose template literal holds exactly the accumulated text |
| `StyleParser.StyleParserPlugin.constructor` | packages/core/src/plugins/parser/StyleParserPlugin.ts:21 | the plugin starts with no text |
| `StyleParser.StyleParserPlugin.OnCompilation` | packages/core/src/plugins/parser/StyleParserPlugin.ts:24-25 | each compilation starts a new text |
| `StyleParser.StyleParserPlugin.ProcessFile` | packages/core/src/plugins/parser/StyleParserPlugin.ts:134-139 | the content goes in front of the text so far |
| `StyleParser.StyleParserPlugin.CollectionComplete` | packages/core/src/plugins/parser/StyleParserPlugin.ts:91-116 | the accumulated text is registered as `cssInsertionModule0` unless the name is taken; no other entry changes |
| `TagName.WithTableKeys` | packages/core/src/parsers/template/TagNamePlugin.ts:20-24 | after `initTransforms` the table holds exactly the keys it had plus the default tags |
| `TagName.WithTableOthers` | packages/core/src/parsers/template/TagNamePlugin.ts:20-24 | a key the default table does not list keeps its transform |
| `TagName.WithTableEntries` | packages/core/src/parsers/template/TagNamePlugin.ts:20-24 | with distinct keys, each default tag maps to the constant transform returning its H5 tag |
| `TagName.TagNamePlugin.constructor` | packages/core/src/parsers/template/TagNamePlugin.ts:15-18 | the fresh plugin's table is the default table laid over an empty one |
| `TagName.TagNamePlugin.InitTransforms` | packages/core/src/parsers/template/TagNamePlugin.ts:20-24 | `initTransforms` lays the default table over what the table held |
| `TagName.TagNamePlugin.SetEach` | packages/core/src/parsers/template/TagNamePlugin.ts:21-23 | the `forEach` sets one constant transform per entry, in order |
| `TagName.TagNamePlugin.OnCompilation` | packages/core/src/parsers/template/TagNamePlugin.ts:27-28 | `tagRule` never removes a transform; with a config every `h5Components` key gets the H5-components transform and every other key keeps its own |
| `TagName.InitialTable` | packages/core/src/parsers/template/TagNamePlugin.ts:15-24 | the fresh table renames exactly the default tags, each to its default H5 tag |
| `TagName.ParseTemplateTag` | packages/core/src/parsers/template/TagNamePlugin.ts:50-85 | `parseTemplateTag` keeps the element's name and never drops or changes a registered template |
| `TagName.ParseWxsTag` | packages/core/src/parsers/template/TagNamePlugin.ts:87-109 | `parseWxsTag` leaves the element as it is and never drops or changes a registered module |
| `TagName.TagNameOf` | packages/core/src/parsers/template/TagNamePlugin.ts:30-46 | the `tagName` tap never drops or changes a registered template or module |
| `TagName.ResolutionOrder` | packages/core/src/parsers/template/TagNamePlugin.ts:35-44 | a table entry comes first, then `template`, then `wxs`, then the camel-cased name |
| `TagName.DefaultTag` | packages/core/src/parsers/template/TagNamePlugin.ts:35-37 | with the fresh table every default tag renders as its default H5 tag |
| `TagName.HyphenatedTag` | packages/core/src/parsers/template/TagNamePlugin.ts:42-43 | a hyphenated tag outside the table renders camel-cased |
| `TagName.TemplateUse` | packages/core/src/parsers/template/TagNamePlugin.ts:55-63 | a used template renders as its registered component or, if not registered, as nothing; the use gains `callEvent` and registers nothing |
| `TagName.TemplateDeclaration` | packages/core/src/parsers/template/TagNamePlugin.ts:68-83 | a declaration renders nothing and registers under its name unless that name is already taken |
| `TagName.WxsDeclaration` | packages/core/src/parsers/template/TagNamePlugin.ts:88-107 | a `<wxs>` module registers under its `module` name unless that name is already taken |
| `TagName.H5ComponentRenames` | packages/core/src/parsers/template/TagNamePlugin.ts:35-37 | an installed H5 component renames the element to the configured tag and spreads the configured props over its attributes |
| `TagRuleH5Components.TagRule` | packages/core/src/parsers/template/TagRuleH5ComponentsPlugin.ts:12-26 | without a config the table is unchanged; with one the table gains exactly the `h5Components` keys, each with the H5-components transform, and every other key keeps its transform |
| `TagRuleH5Components.GetH5CompInfo` | packages/core/src/parsers/template/TagRuleH5ComponentsPlugin.ts:42-62 | an object entry gives its camel-cased tag, its props and its source; a missing or string entry gives the element's own name camel-cased, with no props |
| `TagRuleH5Components.TagTransformH5` | packages/core/src/parsers/template/TagRuleH5ComponentsPlugin.ts:30-40 | the element's new name and the returned tag are both the configured tag |
| `TagRuleH5Components.PropsWin` | packages/core/src/parsers/template/TagRuleH5ComponentsPlugin.ts:33-36 | configured props win over the element's attributes, and attributes the props do not name are kept |
| `TemplateConstants.LookupSpec` | packages/core/src/parsers/template/constants.ts:22-27 | a `Map.get` finds a key exactly when the table lists it, and returns the value listed with that key |
| `TemplateConstants.DirectivesMapExact` | packages/core/src/parsers/template/constants.ts:22-27 | `DIRECTIVES_MAP` maps exactly `wx:if`, `wx:elif`, `wx:else` and `wx:for` to `if`, `elif`, `else`, `for` |
| `TemplateConstants.PriorityGroups` | packages/core/src/parsers/template/constants.ts:32-37 | the priority groups flatten to `wx:for`, `wx:for-item`, `wx:for-index`, `wx:key`, `wx:if` with no repeats; `wx:elif` and `wx:else` are in none |
| `TemplateConstants.AttrsMapExact` | packages/core/src/parsers/template/constants.ts:42-50 | `ATTRS_MAP` renames exactly its seven attributes, `class` to `className` and `ext-class`/`ext-style` to camel case |
| `TemplateConstants.VariablesMapExact` | packages/core/src/parsers/template/constants.ts:56-60 | `VARIABLES_MAP` names exactly the loop's key, index and item |
| `TemplateConstants.RemovedAreVariables` | packages/core/src/parsers/template/constants.ts:56-68 | every removed attribute is a loop-variable attribute, and `wx:key` is not removed |
| `TemplateConstants.KeySetsDisjoint` | packages/core/src/parsers/template/constants.ts:22-60 | no attribute is in two of the directive, loop-variable and renaming tables |
| `TemplateConstants.EventsStartWithOn` | packages/core/src/parsers/template/constants.ts:73-87 | every fixed event maps to a React handler name starting with `on` |
| `TemplateConstants.EventKeysArePrefixed` | packages/core/src/parsers/template/constants.ts:73-87 | every fixed event attribute starts with `bind` or `catch` |
| `TemplateHooks.PutSpec` | packages/core/src/templateHooks.ts:109-113 | after `r[key] = value` the key holds the value, the other keys are untouched, and a new key goes last in the key order |
| `TemplateHooks.PutKeepsDistinct` | packages/core/src/templateHooks.ts:109-113 | `r[key] = value` keeps an object's keys distinct |
| `TemplateHooks.RemoveSpec` | packages/core/src/templateHooks.ts:109-113 | after `delete r[key]` the key is gone and every other key keeps its value |
| `TemplateHooks.SpreadSpec` | packages/core/src/templateHooks.ts:109-113 | in `{...a, ...b}` the keys of `b` win and every other key keeps its value from `a` |
| `TemplateHooks.InitNodeCollector` | packages/core/src/templateHooks.ts:155-161 | a new collector records no directive, sibling condition or variable |
| `TemplateHooks.TagTransforms.constructor` | packages/core/src/templateHooks.ts:109 | a new table holds no transform |
| `TemplateHooks.TagTransforms.Set` | packages/core/src/templateHooks.ts:109 | `transforms[name] = transform` changes that key only |
| `TemplateHooks.CallBailFirst` | packages/core/src/templateHooks.ts:134-137 | a bail hook answers with the earliest handler that returns a result |
| `TemplateHooks.CallBailNone` | packages/core/src/templateHooks.ts:134-137 | a bail hook has no result when no handler has one |
| `TemplateHooks.CallWaterfallSnoc` | packages/core/src/templateHooks.ts:142-144 | a waterfall hook's last handler receives what the earlier handlers produced |
| `TemplateHooks.TemplateHookSet.constructor` | packages/core/src/templateHooks.ts:163-179 | new hooks have no handlers |
| `TemplateHooks.TemplateHookSet.TapAttribute` | packages/core/src/templateHooks.ts:171 | tapping the attribute hook appends the handler and leaves the directives hook alone |
| `TemplateHooks.TemplateHookSet.TapDirectives` | packages/core/src/templateHooks.ts:173 | tapping the directives hook appends the handler and leaves the attribute hook alone |
| `TemplateParser.ExtendsTransitive` | packages/core/src/plugins/parser/TemplateParserPlugin.ts:178-195 | registries only growing, without a registered entry being replaced, composes over several nodes |
| `TemplateParser.TransformNode` | packages/core/src/plugins/parser/TemplateParserPlugin.ts:131-209 | transforming a node never drops or replaces a registered template or module |
| `TemplateParser.TransformNodes` | packages/core/src/plugins/parser/TemplateParserPlugin.ts:124-129 | transforming the siblings keeps one node per sibling and never drops or replaces a registration |
| `TemplateParser.FailureStops` | packages/core/src/plugins/parser/TemplateParserPlugin.ts:124-129 | once a sibling's handler throws, the whole pass fails with that error |
| `TemplateParser.NodesSnoc` | packages/core/src/plugins/parser/TemplateParserPlugin.ts:125-128 | one more sibling is transformed in the state the previous ones left, and its error or node is the list's |
| `TemplateParser.TransformTemplateNode` | packages/core/src/plugins/parser/TemplateParserPlugin.ts:131-209 | the method's result is the transform of the node |
| `TemplateParser.TransformTemplateNodes` | packages/core/src/plugins/parser/TemplateParserPlugin.ts:124-129 | the loop's result is the transform of the siblings |
| `TemplateParser.GenerateTemplateNode` | packages/core/src/plugins/parser/TemplateParserPlugin.ts:223-273 | the method's text is the node's generated text |
| `TemplateParser.GenerateTemplateNodes` | packages/core/src/plugins/parser/TemplateParserPlugin.ts:211-221 | the accumulator loop's text is the siblings' generated text |
| `TemplateParser.GenerateNodesAppend` | packages/core/src/plugins/parser/TemplateParserPlugin.ts:211-221 | the siblings' text splits where the sibling list does |
| `TemplateParser.PlainElementText` | packages/core/src/plugins/parser/TemplateParserPlugin.ts:239-263 | an element with no directive prints `<N attrs>`, its children and `</N>`, or `<N attrs/>` |
| `TemplateParser.LeafText` | packages/core/src/plugins/parser/TemplateParserPlugin.ts:207-209 | a comment prints as a JSX comment and an unhandled node as `undefined`; neither changes the state or the parent's collector |
| `TemplateParser.UnnamedElementSkipped` | packages/core/src/plugins/parser/TemplateParserPlugin.ts:183-186 | an element without an H5 name runs no attribute handler, visits no child, draws no key and prints nothing |
| `TemplateParser.ImageHasNoChildren` | packages/core/src/plugins/parser/TemplateParserPlugin.ts:150-157 | an `image` or `img` element is transformed without its children |
| `TemplateParser.DeclarationsSkipped` | packages/core/src/plugins/parser/TemplateParserPlugin.ts:124-129 | siblings that are all declarations each render without an H5 name and leave the parent's collector unchanged |
| `TemplateParser.DeclarationSkipped` | packages/core/src/plugins/parser/TemplateParserPlugin.ts:178-186 | one `<template>` declaration or `<wxs>` module renders without an H5 name and leaves the parent's collector unchanged |
| `TemplateParser.SkippedPrintNothing` | packages/core/src/plugins/parser/TemplateParserPlugin.ts:239-243 | siblings that all lack an H5 name print nothing together |
| `TemplateParser.ParseResult` | packages/core/src/plugins/parser/TemplateParserPlugin.ts:44-84 | a successful parse yields non-empty JSX text and never drops or replaces a registration |
| `TemplateParser.ParseTemplate` | packages/core/src/plugins/parser/TemplateParserPlugin.ts:44-84 | the method's result is the parse of the file |
| `TemplateParser.DeclarationsOnlyFail` | packages/core/src/plugins/parser/TemplateParserPlugin.ts:63-76 | a file holding only declarations prints nothing, so the parse fails |
| `Utils.FirstLetterUppercase` | packages/utils/src/utils.ts:4-7 | the empty string comes back as it is; any other keeps its length and its tail, with only the first character upper-cased |
| `Utils.FirstLetterUppercaseIdempotent` | packages/utils/src/utils.ts:4-7 | applying it twice is applying it once |
| `Utils.CamelcaseHasNoDash` | packages/utils/src/utils.ts:23-30 | the result never contains `-` |
| `Utils.CamelcaseIdentityWithoutDash` | packages/utils/src/utils.ts:23-30 | a name without `-` comes back unchanged |
| `Utils.CamelcaseMatchesByChars` | packages/utils/src/utils.ts:23-30 | split, map and join agree with a character-by-character reference: every `-` dropped and the character after it upper-cased |
| `Utils.Strike2CamelCaseIsCapitalizedCamelcase` | packages/utils/src/utils.ts:12-18 | the `-` test only short-cuts: the result is always the capitalised camel-case form |
| `Utils.Strike2CamelCaseOfPair` | packages/utils/src/utils.ts:12-18 | two dash-free words joined by `-` come out as both words capitalised |
| `Utils.RewriteUnitsWithoutMatch` | packages/utils/src/utils.ts:39-48 | a text with no `digits(rpx\|px)` match is left as it is, so the `test` guard only short-cuts |
| `Utils.RewriteUnitsSingle` | packages/utils/src/utils.ts:40-46 | a lone length is replaced as a whole |
| `Utils.RewriteUnitsAppend` | packages/utils/src/utils.ts:40 | at a boundary that cannot continue a match, the global replacement distributes over concatenation |
| `Utils.RewriteUnitsDecimal` | packages/utils/src/utils.ts:40 | only the digits right before the unit are captured: in `1.5px` the integer part and the point stay outside the call |
| `Utils.Rpx2RemCases` | packages/utils/src/utils.ts:38-49 | text without a match is unchanged, and a lone length becomes its `this.props.wmrt.rem` call |
| `Wxs.ExportsMatchAt` | packages/core/src/plugins/generator/WxsGeneratorPlugin.ts:80 | a match of `/module.exports\s*=/` is at least 15 characters long and ends at `=` |
| `Wxs.FirstExportsMatch` | packages/core/src/plugins/generator/WxsGeneratorPlugin.ts:80 | the match found is the leftmost one; none found means there is none |
| `Wxs.ReplaceExports` | packages/core/src/plugins/generator/WxsGeneratorPlugin.ts:80 | only the leftmost match is replaced by `export default `; text without one is returned as it is |
| `Wxs.TransformedLayout` | packages/core/src/plugins/generator/WxsGeneratorPlugin.ts:75-86 | the transformed text is the header followed by the rewritten module, which can be read back by dropping the header |
| `Wxs.ExportsHeadRewritten` | packages/core/src/plugins/generator/WxsGeneratorPlugin.ts:80 | a module starting with `module<c>exports`, spaces and `=` has that head replaced, for any `c` but a line terminator; any later assignment stays |
| `Wxs.NewAssetWxs` | packages/core/src/modules/AssetWxs.ts:10-23 | a plain asset keeps its given content; a copy asset reads its file and fails exactly when the read fails; either way the content is transformed |
| `Wxs.Settled` | packages/core/src/plugins/generator/WxsGeneratorPlugin.ts:53-65 | the tap rejects exactly when a read failed, and otherwise warns exactly when some import is missing |
| `Wxs.ProcessAssets` | packages/core/src/plugins/generator/WxsGeneratorPlugin.ts:12-67 | the asset maps and the outcome are those of the loop over the modules |
| `Wxs.ErrorStays` | packages/core/src/plugins/generator/WxsGeneratorPlugin.ts:60-65 | once a read has failed, the rest of the modules change nothing |
| `Wxs.GenerateSummary` | packages/core/src/plugins/generator/WxsGeneratorPlugin.ts:19-52 | without a failed read the missing imports are exactly the unlisted copy modules, and earlier assets stay, new ones only being appended |
| `Wxs.DispatchCases` | packages/core/src/plugins/generator/WxsGeneratorPlugin.ts:25-51 | an unlisted copy module only notes its URL; a listed one is added under its source path; an inline one under its output path; a taken source path adds nothing |
| `Wxs.DispatchTwice` | packages/core/src/plugins/generator/WxsGeneratorPlugin.ts:30-50 | handling the same module twice adds nothing more, although an inline module's guard never sees its own asset |
| `Wxs.WxsLoadedAsObject` | packages/core/src/plugins/parser/WxsParserPlugin.ts:12-20 | the loader's object is not a load result, so the resolved file's content is the object itself and its source is `null` |
| `Wxs.ProcessFile` | packages/core/src/plugins/parser/WxsParserPlugin.ts:24-30 | `processFile` registers a copy asset of the file under its output path |
| `Wxs.RegisteredTwice` | packages/core/src/plugins/parser/WxsParserPlugin.ts:24-30 | a listed `<wxs src>` file handled by both plugins is registered under two paths when these differ |

## Left out

- Babel expression parsing and printing: an expression is a given datatype. The function-typed field `format` of `AttributeHandlers.HandlerContext` stands for `formatSingleMustacheValue`, `formatMultipleMustacheValue`, the `{{ }}` branch of `formatStyleValue` and the bound branch of `formatRuntimeAttrValue`. The static branches of `formatStyleValue` and `formatRuntimeAttrValue` are modelled.
- htmlparser2, the postcss runner and postcss-selector-parser: the parsed template tree, the style tree and the selector tree are given datatypes. `templateTransform` is not part of this model.
- The file system, glob and the `resolve` library: file existence and contents are parameters (`Wxs.WxsEnv`, the loaders of `FileResolver`, the readers of the entry plugins). Writing an asset is a parameter that reports an error or none.
- The conditional-compilation filter is an opaque text function.
- tapable and concurrency: hooks are sequences of handlers, called in registration order, and every asynchronous tap runs to completion before the next one starts.
- `StyleParser.StyleParserPlugin`: its `cssContent` is shared by compilations that run at the same time; the model runs them one after the other.
- Floating-point arithmetic: `wmrt.rem` is an opaque function, and the statistics' time formatting is not part of this model.
- `fakeGuid` draws random keys; the model draws keys from a counter, which gives the same uniqueness the source relies on.
- The runtime React adapter, DOM code, `wmrt.event`/`detail`/`dataset`/`parse`/`stringify`, logging, statistics and the command line are not part of this model.
- `TemplateParser.TransformNode`: the source writes its results (collector, H5 name, attribute text, content, key) into the nodes of the tree in place. The model returns a new tree holding the same fields, so the aliasing of nodes is not captured.
- `AttributeHandlers.AddReferencedData`: the referenced-data filter is modelled and proved on its own, but no handler calls it, because `format` returns text only. So the compilation's `addThisDataCollector` stays empty in the model. Its copy into `entryAddThisDataCollector` (TemplateParserPlugin.ts:63-76) is not modelled.
- `AttributeHandlers.HandlerContext`: `format` is total. The source rethrows a Babel parse error of a binding (AttributeAndTextPlugin.ts:748-757), and that error path is lost.
- `FileResolver.ResolveFile`: a loader that throws is not modelled. The source logs the error and rethrows it (FileResolver.ts:113-116); the model's loaders always return a value.
- `Wxs.WxsLoader`: the loader is total, although `readFileSync` throws on a missing file.
- `DependencyCollector.Collector.CollectDependencies`: `Promise.all` is modelled as a walk in list order. Only the set of claimed lower-cased keys is independent of that order. When two paths share a key (two spellings of one file), the model keeps the `File` that a depth-first walk in list order reaches first; the source keeps whichever branch reaches the claim first in time. The dependencies of a file are a total function (`depsOf`), so a rejection during the walk is not modelled.
- `Runtime.SetKey`: a style object keeps its keys in insertion order. A JavaScript object lists integer-like keys first, in ascending order. The same gap applies to `TagRuleH5Components.TagRule` and `JsxGenerator.AddH5Imports`, which walk `h5Components`, and to `JsxGenerator.AddLibraryImports`, which walks the `libraries` object. The model walks these entries in the configuration's or insertion order.
- `StyleParser.StyleParserPlugin.CollectionComplete`: `importUrl` is a parameter. The source passes `''`, so `WxssModule` computes it as the module path relative to the component's directory with the `.css.js` extension (WxssModule.ts:36-41); that path computation is not part of this model.
- `JsxGenerator.IncludeStep`: a default import is bound to the component's key, not to `namedAs || name` (JsxGeneratorPlugin.ts:101-113). The include map built at ComponentCompilerEntryPlugin.ts:231-234 never sets `namedAs`, so the two agree on every map the model builds.
- `EmitAssets.EmitAssets`: the writes are awaited with `Promise.all`. The model reports the first failing write in list order, not the first rejection in time.
- `DependencyCollector.ProcessFiles`: the files are processed under `Promise.all`, and each rejection is pushed onto `errors` when it arrives (DependencyCollector.ts:158-166). The model joins the errors in file order, where the source joins them in the order the rejections arrive. Only the set of errors and whether the call fails do not depend on that order.
- `JsxGenerator.RenameClasses`: the source's `ClassDeclaration` visitor renames every class the traversal reaches, including classes nested inside functions. The model treats any other statement as opaque, so it renames only top-level class declarations.
- `StyleParser.ImportDependencies`: the same holds for the `Promise.all` over the `@import`s of a stylesheet.
- `DependencyCollector.Collector.CollectionComplete`: the call of `collectDependenciesComplete` after `processFiles` (DependencyCollector.ts:91) is not made. The tap that handles that hook is modelled on its own as `StyleParser.StyleParserPlugin.CollectionComplete`.
- `Strings.IsSpace`: whitespace is the ASCII, Latin-1 and line-terminator part of JavaScript's `\s`: tab, line feed, U+000B, U+000C, carriage return, space, U+00A0, U+2028, U+2029 and U+FEFF. U+1680, U+2000–U+200A, U+202F, U+205F and U+3000 are not counted as spaces.
- `Strings.ToLower`: only ASCII letters change case; `Strings.UpperChar` likewise. JavaScript's `toLowerCase` and `toUpperCase` map every Unicode letter.
- `Runtime.Cn`: numbers are integers in `JsVal`. Floating-point values and `NaN` passed to `cn` or `style` are not modelled.
- `Compiler.Compiler.Build`: the distribution plugin's `hooks.fail` call for an empty module map is not modelled. `make` has one tap per module, each of which either calls back or never does.

## Findings

| source | as written | input that shows it | evidently intended | confidence | as-written member | corrected member |
|---|---|---|---|---|---|---|
| packages/runtime/src/wmrt.js:56-60 | every `;`-separated segment with a non-empty key is split at `:` and its value trimmed, so a segment with no `:` leaves the value `undefined` and `v.trim()` throws | `"color: red; "`, whose last segment `" "` is a non-empty key without a value | a segment without a value is skipped like an empty one, so a trailing `"; "` is harmless | not executed | `Runtime.StyleTrailingSpaceThrows` | `Runtime.StyleTolerantAgrees` |
