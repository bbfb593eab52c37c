/** packages/core/src/plugins/compiler/CompilerEmitAssetsPlugin.ts: at the
 *  `emitAssets` stage every registered asset is written out unless it lies
 *  under a module whose compilation failed. The failure test is a plain
 *  string prefix test on the asset's absolute path. */
module EmitAssets {
  import opened Wrappers
  import opened Strings
  import opened TemplateHooks
  import opened Compiler

  /** `isAssetFail`: with no recorded failures nothing fails; otherwise an
   *  asset fails when its absolute path starts with the base path of some
   *  failed module. */
  predicate IsAssetFail(stats: CompilerStats, asset: Asset)
  {
    match stats.fail
    case None => false
    case Some(failStats) =>
      |failStats| != 0 && exists i :: 0 <= i < |failStats| && StartsWith(asset.absPath, failStats[i].basePath)
  }

  /** The assets of the compiler's map, in its insertion order. */
  function AssetValues(assets: Record<Asset>): (vs: seq<Asset>)
    ensures |vs| == |assets| && forall i :: 0 <= i < |assets| ==> vs[i] == assets[i].1
  {
    seq(|assets|, i requires 0 <= i < |assets| => assets[i].1)
  }

  /** The assets the emit loop writes, in iteration order: those that do
   *  not fail, each as often as it occurs. */
  function Emitted(stats: CompilerStats, assets: seq<Asset>): (written: seq<Asset>)
    ensures |written| <= |assets|
  {
    if assets == [] then []
    else if IsAssetFail(stats, assets[0]) then Emitted(stats, assets[1..])
    else [assets[0]] + Emitted(stats, assets[1..])
  }

  /** Every asset that does not fail is written exactly as often as it is
   *  registered, and nothing else is written. */
  lemma {:induction false} EmittedExactlyOnce(stats: CompilerStats, assets: seq<Asset>)
    ensures forall a :: a in Emitted(stats, assets) <==> a in assets && !IsAssetFail(stats, a)
    ensures forall a :: multiset(Emitted(stats, assets))[a] == if IsAssetFail(stats, a) then 0 else multiset(assets)[a]
  {
    if assets != [] {
      EmittedExactlyOnce(stats, assets[1..]);
      assert assets == [assets[0]] + assets[1..];
    }
  }

  /** The error the callback of `Promise.all` receives, taking the writes
   *  in order: none when every write succeeds. */
  function FirstError(writeError: Asset -> Option<string>, written: seq<Asset>): (e: Option<string>)
    ensures e.None? <==> forall i :: 0 <= i < |written| ==> writeError(written[i]).None?
    ensures e.Some? ==> exists i :: 0 <= i < |written| && writeError(written[i]) == e
  {
    if written == [] then None
    else if writeError(written[0]).Some? then writeError(written[0])
    else
      var e := FirstError(writeError, written[1..]);
      assert forall i :: 0 < i < |written| ==> written[i] == written[1..][i - 1];
      e
  }

  /** The emit loop: each asset that does not fail is written, once, in the
   *  order of the compiler's asset map, and the callback then receives the
   *  first failed write's error, if any. */
  method EmitAssets(compiler: Compiler, writeError: Asset -> Option<string>)
    returns (written: seq<Asset>, callbackError: Option<string>)
    ensures written == Emitted(compiler.stats, AssetValues(compiler.assets))
    ensures callbackError == FirstError(writeError, written)
  {
    var values := AssetValues(compiler.assets);
    written := [];
    callbackError := None;
    for i := 0 to |values|
      invariant written == Emitted(compiler.stats, values[..i])
      invariant callbackError == FirstError(writeError, written)
    {
      EmittedSnoc(compiler.stats, values[..i], values[i]);
      assert values[..i + 1] == values[..i] + [values[i]];
      if !IsAssetFail(compiler.stats, values[i]) {
        FirstErrorSnoc(writeError, written, values[i]);
        written := written + [values[i]];
        if callbackError.None? {
          callbackError := writeError(values[i]);
        }
      }
    }
    assert values[..|values|] == values;
  }

  lemma {:induction false} EmittedSnoc(stats: CompilerStats, assets: seq<Asset>, a: Asset)
    ensures Emitted(stats, assets + [a]) == Emitted(stats, assets) + (if IsAssetFail(stats, a) then [] else [a])
  {
    var tail := if IsAssetFail(stats, a) then [] else [a];
    if assets == [] {
      assert [a][1..] == [];
    } else {
      var b := assets + [a];
      assert b[0] == assets[0] && b[1..] == assets[1..] + [a];
      EmittedSnoc(stats, assets[1..], a);
      var head := if IsAssetFail(stats, assets[0]) then [] else [assets[0]];
      assert Emitted(stats, b) == head + Emitted(stats, b[1..]);
      assert Emitted(stats, assets) == head + Emitted(stats, assets[1..]);
      assert head + (Emitted(stats, assets[1..]) + tail) == (head + Emitted(stats, assets[1..])) + tail;
    }
  }

  lemma {:induction false} FirstErrorSnoc(writeError: Asset -> Option<string>, written: seq<Asset>, a: Asset)
    ensures FirstError(writeError, written + [a]) ==
      if FirstError(writeError, written).Some? then FirstError(writeError, written) else writeError(a)
  {
    if written != [] {
      assert (written + [a])[1..] == written[1..] + [a];
      FirstErrorSnoc(writeError, written[1..], a);
    }
  }

  /** With no recorded failures (absent or empty), every asset is written. */
  lemma {:induction false} NoFailuresEmitsAll(stats: CompilerStats, assets: seq<Asset>)
    requires stats.fail.None? || stats.fail == Some([])
    ensures Emitted(stats, assets) == assets
  {
    if assets != [] {
      NoFailuresEmitsAll(stats, assets[1..]);
      assert !IsAssetFail(stats, assets[0]);
      assert assets == [assets[0]] + assets[1..];
    }
  }

  /** The prefix test is on strings, not on path segments: an asset in a
   *  sibling directory whose name extends a failed module's directory name
   *  is skipped as well. */
  lemma SiblingDirectorySkipped(stats: CompilerStats, failedBase: string, sibling: string, asset: Asset)
    requires stats.fail.Some? && CompileInfo("", failedBase) in stats.fail.value
    requires asset.absPath == failedBase + sibling
    ensures IsAssetFail(stats, asset)
    ensures !IsAssetFail(CompilerStats(stats.complete, None), asset)
  {
    var failStats := stats.fail.value;
    var i :| 0 <= i < |failStats| && failStats[i] == CompileInfo("", failedBase);
    assert asset.absPath[..|failedBase|] == failedBase;
    assert StartsWith(asset.absPath, failStats[i].basePath);
  }

  /** An asset is skipped exactly when some failed module's base path is a
   *  prefix of its path, and the skipped and written assets together are
   *  all of them. */
  lemma {:induction false} EmittedPartition(stats: CompilerStats, assets: seq<Asset>)
    ensures |Emitted(stats, assets)| + |Skipped(stats, assets)| == |assets|
    ensures forall a :: a in Skipped(stats, assets) <==> a in assets && IsAssetFail(stats, a)
  {
    if assets != [] {
      EmittedPartition(stats, assets[1..]);
      assert assets == [assets[0]] + assets[1..];
    }
  }

  /** The assets the loop passes over with `continue`. */
  function Skipped(stats: CompilerStats, assets: seq<Asset>): seq<Asset>
  {
    if assets == [] then []
    else if IsAssetFail(stats, assets[0]) then [assets[0]] + Skipped(stats, assets[1..])
    else Skipped(stats, assets[1..])
  }
}
