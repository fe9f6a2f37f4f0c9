/** The body of `RasterizeVectorTask.task()`: for every named GML layer, load it,
    reproject it and burn it into a per-layer raster in a temporary directory, then
    sum the per-layer rasters with the raster calculator.

    Every call into QGIS, GDAL or the file system is an input: a `World` says what
    each call would do. */
module RasterizeVector {
  import opened Builtins

  /** The outcomes of the calls made for one entry of `layer_names`, in the order the
      task makes them. */
  datatype LayerWorld = LayerWorld(
    load: Call,       // QgsVectorLayer("<gml>|layername=<name>").isValid()
    reproject: Call,  // processing.run("native:reprojectlayer", ...)
    reload: Call,     // QgsVectorLayer("<tempdir>/<name>_reprojected.gpkg").isValid()
    rasterize: Call)  // processing.run("gdal:rasterize", ...)

  /** Everything the task observes from outside. */
  datatype World = World(
    tempdir: string,          // the directory tempfile.mkdtemp() created
    referenceValid: bool,     // QgsRasterLayer(reference_raster_path).isValid()
    layers: seq<LayerWorld>,  // one entry per entry of layer_names
    calculator: Call,               // processing.run("native:rastercalc", ...)
    outputExists: bool)       // os.path.exists(raster_output_path) afterwards

  /** The parameters handed to the raster calculator. */
  datatype CalcParams = CalcParams(layers: seq<string>, expression: string, output: string)

  /** How the try block was left: by `return <value>` or by an exception. */
  datatype Exit = ReturnValue(value: bool) | Exception(error: Failure)

  /** What the try block did: its exit, the `rasters` list it had collected, and the
      calculator call it made, if any. */
  datatype TryRun = TryRun(exit: Exit, rasters: seq<string>, calculation: Option<CalcParams>)

  /** What one call of `task()` did: its return value, the rasters collected, the
      calculator call, the exception stored in `self.exception`, and whether the
      temporary directory was removed. */
  datatype Run = Run(ok: bool, rasters: seq<string>, calculation: Option<CalcParams>,
                     raised: Option<Failure>, cleanedUp: bool)

  /** What the layer loop does with one entry of `layer_names`. */
  datatype LayerStep = Threw(error: Failure) | Skipped | Rasterized(produced: bool)

  /** The temporary raster written for layer `name`. */
  function RasterPath(tempdir: string, name: string): string {
    PathJoin(tempdir, name + "_raster.tif")
  }

  /** The raster path ends in `<name>_raster.tif`; under a directory with no trailing
      separator and a relative name it is `<tempdir>/<name>_raster.tif`. */
  lemma RasterPathShape(tempdir: string, name: string)
    ensures var r := RasterPath(tempdir, name);
            |r| >= |name| + 11 && r[|r| - |name| - 11..] == name + "_raster.tif"
    ensures (tempdir != [] && tempdir[|tempdir| - 1] != '/' && (name == [] || name[0] != '/'))
              ==> RasterPath(tempdir, name) == tempdir + "/" + name + "_raster.tif"
  {
    assert name == [] ==> (name + "_raster.tif")[0] == '_';
    assert name != [] ==> (name + "_raster.tif")[0] == name[0];
  }

  /** The calculator term for layer `name`: its raster's band 1, quoted. */
  function Term(name: string): string {
    "\"" + name + "_raster@1\""
  }

  /** A term is the layer name between a quote and `_raster@1"`. */
  lemma TermShape(name: string)
    ensures |Term(name)| == |name| + 11 && Term(name)[0] == '"'
    ensures Term(name)[1..|name| + 1] == name && Term(name)[|name| + 1..] == "_raster@1\""
  {
  }

  /** The characters `rstrip` removes from the end of the expression. */
  const StripChars: set<char> := {' ', '+'}

  // ---------------------------------------------------------------------------
  // One layer

  /** The decisions of one loop iteration: a failed load or a falsy reprojection
      result skips the layer; an invalid reprojected layer is only logged; the
      rasterize result decides whether a raster path is kept. */
  function Step(l: LayerWorld): LayerStep {
    match l.load
    case Raised(e) => Threw(e)
    case Returned(valid) =>
      if !valid then Skipped
      else match l.reproject
        case Raised(e) => Threw(e)
        case Returned(reprojected) =>
          if !reprojected then Skipped
          else match l.reload
            case Raised(e) => Threw(e)
            case Returned(_) =>
              match l.rasterize
              case Raised(e) => Threw(e)
              case Returned(made) => Rasterized(made)
  }

  /** A layer that does not load, or whose reprojection result is falsy, is skipped. */
  lemma SkipCauses(l: LayerWorld)
    requires l.load == Returned(false) || (l.load == Returned(true) && l.reproject == Returned(false))
    ensures Step(l) == Skipped
  {
  }

  /** The validity of the reprojected layer is only logged: the layer is rasterized
      whether or not it is valid. */
  lemma InvalidReprojectionStillRasterized(l: LayerWorld)
    requires l.load == Returned(true) && l.reproject == Returned(true)
    requires l.reload == Returned(false)
    ensures Step(l) == Step(l.(reload := Returned(true)))
    ensures l.rasterize.Returned? ==> Step(l) == Rasterized(l.rasterize.truthy)
  {
  }

  // ---------------------------------------------------------------------------
  // The reference definitions: which rasters are produced, where the loop throws

  /** The raster path contributed by one layer: present exactly when rasterize
      returned a truthy result. */
  function Contribution(tempdir: string, name: string, l: LayerWorld): seq<string> {
    if Step(l) == Rasterized(true) then [RasterPath(tempdir, name)] else []
  }

  /** The raster paths of the layers whose rasterize result was truthy, in
      `layer_names` order. */
  function ProducedPaths(tempdir: string, names: seq<string>, layers: seq<LayerWorld>): (r: seq<string>)
    requires |names| == |layers|
    ensures |r| <= |names|
  {
    if names == [] then []
    else Contribution(tempdir, names[0], layers[0]) + ProducedPaths(tempdir, names[1..], layers[1..])
  }

  /** A path is produced exactly when some layer's rasterize result was truthy and
      the path is that layer's temporary raster. */
  lemma {:induction false} ProducedPathsMembers(tempdir: string, names: seq<string>, layers: seq<LayerWorld>, p: string)
    requires |names| == |layers|
    ensures p in ProducedPaths(tempdir, names, layers) <==>
              exists i :: 0 <= i < |names| && Step(layers[i]) == Rasterized(true) && p == RasterPath(tempdir, names[i])
  {
    if names != [] {
      ProducedPathsMembers(tempdir, names[1..], layers[1..], p);
      if p in ProducedPaths(tempdir, names[1..], layers[1..]) {
        var i :| 0 <= i < |names| - 1 && Step(layers[1..][i]) == Rasterized(true) && p == RasterPath(tempdir, names[1..][i]);
        assert Step(layers[i + 1]) == Rasterized(true) && p == RasterPath(tempdir, names[i + 1]);
      }
      if exists i :: 0 <= i < |names| && Step(layers[i]) == Rasterized(true) && p == RasterPath(tempdir, names[i]) {
        var i :| 0 <= i < |names| && Step(layers[i]) == Rasterized(true) && p == RasterPath(tempdir, names[i]);
        if i > 0 {
          assert Step(layers[1..][i - 1]) == Rasterized(true) && p == RasterPath(tempdir, names[1..][i - 1]);
        }
      }
    }
  }

  /** The index of the first layer whose processing raises, if any. */
  function FirstThrow(layers: seq<LayerWorld>): (r: Option<nat>)
    ensures r.Some? ==> r.value < |layers| && Step(layers[r.value]).Threw?
    ensures r.Some? ==> forall j :: 0 <= j < r.value ==> !Step(layers[j]).Threw?
    ensures r.None? ==> forall j :: 0 <= j < |layers| ==> !Step(layers[j]).Threw?
  {
    if layers == [] then None
    else if Step(layers[0]).Threw? then Some(0)
    else match FirstThrow(layers[1..])
      case None => None
      case Some(k) => Some(k + 1)
  }

  // ---------------------------------------------------------------------------
  // The layer loop, as the code runs it

  /** The state of the layer loop: the `rasters` list and the exception, if one was raised. */
  datatype Progress = Progress(rasters: seq<string>, raised: Option<Failure>)

  /** One iteration of the layer loop for layer `name`; once an exception has been
      raised no further layer is examined. */
  function Advance(tempdir: string, prev: Progress, name: string, l: LayerWorld): Progress {
    if prev.raised.Some? then prev
    else match Step(l)
      case Threw(e) => Progress(prev.rasters, Some(e))
      case Skipped => prev
      case Rasterized(made) =>
        if made then Progress(prev.rasters + [RasterPath(tempdir, name)], None) else prev
  }

  /** The layer loop run over `names`, one iteration after the other. */
  function Scan(tempdir: string, names: seq<string>, layers: seq<LayerWorld>): Progress
    requires |names| == |layers|
    decreases |names|
  {
    if names == [] then Progress([], None)
    else
      var n := |names| - 1;
      Advance(tempdir, Scan(tempdir, names[..n], layers[..n]), names[n], layers[n])
  }

  /** One iteration adds at most the layer's own raster path, and does nothing once
      an exception has been raised. */
  lemma AdvanceContributes(tempdir: string, prev: Progress, name: string, l: LayerWorld)
    ensures prev.raised.Some? ==> Advance(tempdir, prev, name, l) == prev
    ensures prev.raised.None? ==>
              Advance(tempdir, prev, name, l).rasters == prev.rasters + Contribution(tempdir, name, l)
    ensures prev.raised.None? ==>
              (Advance(tempdir, prev, name, l).raised.Some? <==> Step(l).Threw?)
  {
  }

  /** The loop keeps at most one raster path per entry of `layer_names`. */
  lemma {:induction false} ScanBounded(tempdir: string, names: seq<string>, layers: seq<LayerWorld>)
    requires |names| == |layers|
    ensures |Scan(tempdir, names, layers).rasters| <= |names|
    decreases |names|
  {
    if names != [] {
      var n := |names| - 1;
      ScanBounded(tempdir, names[..n], layers[..n]);
      AdvanceContributes(tempdir, Scan(tempdir, names[..n], layers[..n]), names[n], layers[n]);
    }
  }

  /** The reference for the loop: with no exception, the produced paths of all
      layers; otherwise the paths produced before the first layer that raised,
      and that layer's exception. */
  function Reference(tempdir: string, names: seq<string>, layers: seq<LayerWorld>): Progress
    requires |names| == |layers|
  {
    match FirstThrow(layers)
    case None => Progress(ProducedPaths(tempdir, names, layers), None)
    case Some(k) => Progress(ProducedPaths(tempdir, names[..k], layers[..k]), Some(Step(layers[k]).error))
  }

  lemma {:induction false} ProducedPathsAppend(tempdir: string, n1: seq<string>, l1: seq<LayerWorld>,
                                               n2: seq<string>, l2: seq<LayerWorld>)
    requires |n1| == |l1| && |n2| == |l2|
    ensures ProducedPaths(tempdir, n1 + n2, l1 + l2)
         == ProducedPaths(tempdir, n1, l1) + ProducedPaths(tempdir, n2, l2)
  {
    if n1 != [] {
      assert (n1 + n2)[1..] == n1[1..] + n2;
      assert (l1 + l2)[1..] == l1[1..] + l2;
      ProducedPathsAppend(tempdir, n1[1..], l1[1..], n2, l2);
    } else {
      assert n1 + n2 == n2 && l1 + l2 == l2;
    }
  }

  /** Removing a skipped layer from the input changes nothing in the rasters produced. */
  lemma SkippedLayerAddsNothing(tempdir: string, names: seq<string>, layers: seq<LayerWorld>, i: nat)
    requires |names| == |layers| && i < |names|
    requires layers[i].load == Returned(false)
          || (layers[i].load == Returned(true) && layers[i].reproject == Returned(false))
    ensures ProducedPaths(tempdir, names, layers)
         == ProducedPaths(tempdir, names[..i] + names[i + 1..], layers[..i] + layers[i + 1..])
  {
    var tailNames, tailLayers := names[i..], layers[i..];
    assert names == names[..i] + tailNames && layers == layers[..i] + tailLayers;
    ProducedPathsAppend(tempdir, names[..i], layers[..i], tailNames, tailLayers);
    ProducedPathsAppend(tempdir, names[..i], layers[..i], names[i + 1..], layers[i + 1..]);
    SkipCauses(layers[i]);
    assert tailNames[1..] == names[i + 1..] && tailLayers[1..] == layers[i + 1..];
    assert Contribution(tempdir, tailNames[0], tailLayers[0]) == [];
    assert ProducedPaths(tempdir, tailNames, tailLayers) == ProducedPaths(tempdir, names[i + 1..], layers[i + 1..]);
    calc {
      ProducedPaths(tempdir, names, layers);
      ProducedPaths(tempdir, names[..i] + tailNames, layers[..i] + tailLayers);
      ProducedPaths(tempdir, names[..i], layers[..i]) + ProducedPaths(tempdir, tailNames, tailLayers);
      ProducedPaths(tempdir, names[..i], layers[..i]) + ProducedPaths(tempdir, names[i + 1..], layers[i + 1..]);
    }
  }

  lemma ReferenceSnocEarlierThrow(tempdir: string, ns: seq<string>, ls: seq<LayerWorld>, name: string, l: LayerWorld)
    requires |ns| == |ls| && FirstThrow(ls).Some?
    ensures Reference(tempdir, ns + [name], ls + [l]) == Reference(tempdir, ns, ls)
  {
    var all, allNames := ls + [l], ns + [name];
    var k := FirstThrow(ls).value;
    assert forall j :: 0 <= j < |ls| ==> all[j] == ls[j];
    assert FirstThrow(all) == Some(k);
    assert allNames[..k] == ns[..k] && all[..k] == ls[..k];
  }

  lemma ReferenceSnocThrow(tempdir: string, ns: seq<string>, ls: seq<LayerWorld>, name: string, l: LayerWorld)
    requires |ns| == |ls| && FirstThrow(ls).None? && Step(l).Threw?
    ensures Reference(tempdir, ns + [name], ls + [l]) == Progress(ProducedPaths(tempdir, ns, ls), Some(Step(l).error))
  {
    var all, allNames := ls + [l], ns + [name];
    assert forall j :: 0 <= j < |ls| ==> all[j] == ls[j];
    assert all[|ls|] == l;
    assert FirstThrow(all) == Some(|ls|);
    assert allNames[..|ns|] == ns && all[..|ls|] == ls;
  }

  lemma ReferenceSnocNoThrow(tempdir: string, ns: seq<string>, ls: seq<LayerWorld>, name: string, l: LayerWorld)
    requires |ns| == |ls| && FirstThrow(ls).None? && !Step(l).Threw?
    ensures Reference(tempdir, ns + [name], ls + [l])
         == Progress(ProducedPaths(tempdir, ns, ls) + Contribution(tempdir, name, l), None)
  {
    var all := ls + [l];
    assert forall j :: 0 <= j < |ls| ==> all[j] == ls[j];
    assert all[|ls|] == l;
    assert FirstThrow(all).None?;
    ProducedPathsAppend(tempdir, ns, ls, [name], [l]);
    assert ProducedPaths(tempdir, [name], [l]) == Contribution(tempdir, name, l);
  }

  /** One more iteration of the loop agrees with the reference for one more layer. */
  lemma ReferenceSnoc(tempdir: string, ns: seq<string>, ls: seq<LayerWorld>, name: string, l: LayerWorld)
    requires |ns| == |ls|
    ensures Reference(tempdir, ns + [name], ls + [l]) == Advance(tempdir, Reference(tempdir, ns, ls), name, l)
  {
    if FirstThrow(ls).Some? {
      ReferenceSnocEarlierThrow(tempdir, ns, ls, name, l);
    } else if Step(l).Threw? {
      ReferenceSnocThrow(tempdir, ns, ls, name, l);
    } else {
      ReferenceSnocNoThrow(tempdir, ns, ls, name, l);
    }
  }

  /** The loop, run to the end, is described by the reference definitions. */
  lemma {:induction false} ScanMatchesReference(tempdir: string, names: seq<string>, layers: seq<LayerWorld>)
    requires |names| == |layers|
    ensures Scan(tempdir, names, layers) == Reference(tempdir, names, layers)
    decreases |names|
  {
    if names != [] {
      var n := |names| - 1;
      var ns, ls := names[..n], layers[..n];
      assert ns + [names[n]] == names && ls + [layers[n]] == layers;
      ScanMatchesReference(tempdir, ns, ls);
      ReferenceSnoc(tempdir, ns, ls, names[n], layers[n]);
      calc {
        Scan(tempdir, names, layers);
        Advance(tempdir, Scan(tempdir, ns, ls), names[n], layers[n]);
        Advance(tempdir, Reference(tempdir, ns, ls), names[n], layers[n]);
        Reference(tempdir, ns + [names[n]], ls + [layers[n]]);
        Reference(tempdir, names, layers);
      }
    }
  }

  /** Once an exception is raised, further entries of `layer_names` are not examined. */
  lemma {:induction false} ScanSticky(tempdir: string, names: seq<string>, layers: seq<LayerWorld>, n: nat)
    requires |names| == |layers| && n <= |names|
    requires Scan(tempdir, names[..n], layers[..n]).raised.Some?
    ensures Scan(tempdir, names, layers) == Scan(tempdir, names[..n], layers[..n])
    decreases |names| - n
  {
    if n < |names| {
      var m := |names| - 1;
      assert names[..m][..n] == names[..n] && layers[..m][..n] == layers[..n];
      ScanSticky(tempdir, names[..m], layers[..m], n);
      var prev := Scan(tempdir, names[..m], layers[..m]);
      assert prev.raised.Some?;
      assert Scan(tempdir, names, layers) == Advance(tempdir, prev, names[m], layers[m]);
    } else {
      assert names[..n] == names && layers[..n] == layers;
    }
  }

  // ---------------------------------------------------------------------------
  // The calculator expression

  /** The expression as the `+=` loop leaves it: every term followed by " + ". */
  function Accumulated(names: seq<string>): string {
    if names == [] then "" else Accumulated(names[..|names| - 1]) + Term(names[|names| - 1]) + " + "
  }

  /** The expression handed to the calculator: the accumulated string with its
      trailing spaces and plus signs stripped, which is the terms joined by " + ". */
  function Expression(names: seq<string>): (r: string)
    ensures r == SumExpression(names)
  {
    ExpressionIsSum(names);
    RStrip(Accumulated(names), StripChars)
  }

  /** The reference: the terms of all names joined by " + ". */
  function SumExpression(names: seq<string>): (r: string)
    ensures names == [] <==> r == []
    ensures names != [] ==> r[|r| - 1] == '"'
  {
    if names == [] then ""
    else if |names| == 1 then Term(names[0])
    else Term(names[0]) + " + " + SumExpression(names[1..])
  }

  lemma {:induction false} SumExpressionSnoc(names: seq<string>, n: string)
    requires names != []
    ensures SumExpression(names + [n]) == SumExpression(names) + " + " + Term(n)
  {
    var all := names + [n];
    assert all[0] == names[0];
    if |names| == 1 {
      assert all[1..] == [n];
      calc {
        SumExpression(all);
        Term(names[0]) + " + " + SumExpression([n]);
        SumExpression(names) + " + " + Term(n);
      }
    } else {
      assert all[1..] == names[1..] + [n];
      SumExpressionSnoc(names[1..], n);
      calc {
        SumExpression(all);
        Term(names[0]) + " + " + SumExpression(names[1..] + [n]);
        Term(names[0]) + " + " + (SumExpression(names[1..]) + " + " + Term(n));
        (Term(names[0]) + " + " + SumExpression(names[1..])) + " + " + Term(n);
        SumExpression(names) + " + " + Term(n);
      }
    }
  }

  lemma {:induction false} AccumulatedIsSumPlusSeparator(names: seq<string>)
    requires names != []
    ensures Accumulated(names) == SumExpression(names) + " + "
    decreases |names|
  {
    var m := |names| - 1;
    var init, last := names[..m], names[m];
    assert Accumulated(names) == Accumulated(init) + Term(last) + " + ";
    if m == 0 {
      assert init == [] && names == [last];
      assert Accumulated(init) == [];
      assert SumExpression(names) == Term(last);
    } else {
      AccumulatedIsSumPlusSeparator(init);
      SumExpressionSnoc(init, last);
      assert init + [last] == names;
      calc {
        Accumulated(names);
        (SumExpression(init) + " + ") + Term(last) + " + ";
        (SumExpression(init) + " + " + Term(last)) + " + ";
        SumExpression(names) + " + ";
      }
    }
  }

  /** Stripping one more trailing space or plus sign gives the same result. */
  lemma RStripDropsLast(t: string, c: char)
    requires c in StripChars
    ensures RStrip(t + [c], StripChars) == RStrip(t, StripChars)
  {
    assert (t + [c])[..|t|] == t;
  }

  /** `rstrip(" +")` removes a trailing " + " and stops at a character it does not strip. */
  lemma StripSeparator(s: string)
    requires s != [] && s[|s| - 1] !in StripChars
    ensures RStrip(s + " + ", StripChars) == s
  {
    var s1 := s + [' '];
    var s2 := s1 + ['+'];
    assert s + " + " == s2 + [' '];
    RStripDropsLast(s2, ' ');
    RStripDropsLast(s1, '+');
    RStripDropsLast(s, ' ');
  }

  /** The `rstrip` removes exactly the trailing " + " and nothing of the last term,
      which ends in a quote; with no names the expression is empty. */
  lemma ExpressionIsSum(names: seq<string>)
    ensures RStrip(Accumulated(names), StripChars) == SumExpression(names)
  {
    if names != [] {
      AccumulatedIsSumPlusSeparator(names);
      StripSeparator(SumExpression(names));
    }
  }

  /** A single name gives its term alone, with no separator. */
  lemma SingleNameExpression(name: string)
    ensures Expression([name]) == Term(name)
  {
  }

  /** A string mentions its own prefix. */
  lemma MentionsPrefix(t: string, u: string)
    ensures Mentions(t + u, t)
  {
    assert (t + u)[0..] == t + u;
  }

  /** Whatever a string mentions, the string with a prefix still mentions. */
  lemma MentionsAfterPrefix(head: string, rest: string, t: string)
    requires Mentions(rest, t)
    ensures Mentions(head + rest, t)
  {
    var k :| 0 <= k <= |rest| && t <= rest[k..];
    assert (head + rest)[|head| + k..] == rest[k..];
  }

  lemma {:induction false} SumMentionsEveryName(names: seq<string>, i: nat)
    requires i < |names|
    ensures Mentions(SumExpression(names), Term(names[i]))
  {
    var t := Term(names[i]);
    if i == 0 {
      if |names| == 1 {
        MentionsPrefix(t, []);
        assert t + [] == SumExpression(names);
      } else {
        MentionsPrefix(t, " + " + SumExpression(names[1..]));
        assert t + (" + " + SumExpression(names[1..])) == SumExpression(names);
      }
    } else {
      SumMentionsEveryName(names[1..], i - 1);
      assert t == Term(names[1..][i - 1]);
      MentionsAfterPrefix(Term(names[0]) + " + ", SumExpression(names[1..]), t);
    }
  }

  /** The expression names every entry of `layer_names`, including the layers for
      which no raster was produced. */
  lemma ExpressionNamesEveryLayer(names: seq<string>, i: nat)
    requires i < |names|
    ensures Mentions(Expression(names), Term(names[i]))
  {
    SumMentionsEveryName(names, i);
  }

  // ---------------------------------------------------------------------------
  // The whole task

  /** What the try block does, as a function of the world. */
  function TryBlock(names: seq<string>, output: string, w: World): (t: TryRun)
    requires |w.layers| == |names|
    ensures t.exit == ReturnValue(true) ==> t.rasters != [] && t.calculation.Some? && w.calculator == Returned(true) && w.outputExists
    ensures t.rasters == [] ==> t.calculation.None?
    ensures t.calculation.Some? ==> t.calculation.value == CalcParams(t.rasters, SumExpression(names), output)
  {
    var p := Scan(w.tempdir, names, w.layers);
    if p.raised.Some? then TryRun(Exception(p.raised.value), p.rasters, None)
    else if p.rasters == [] then TryRun(ReturnValue(false), [], None)
    else
      var params := CalcParams(p.rasters, Expression(names), output);
      match w.calculator
      case Raised(e) => TryRun(Exception(e), p.rasters, Some(params))
      case Returned(result) => TryRun(ReturnValue(result && w.outputExists), p.rasters, Some(params))
  }

  /** What `task()` does, as a function of the world: an invalid reference raster
      returns False before the try block (so the temporary directory is not removed);
      otherwise an exception is caught and stored, and the directory is removed on
      every exit from the try block. */
  function TaskOutcome(names: seq<string>, output: string, w: World): (r: Run)
    requires |w.layers| == |names|
    ensures !w.referenceValid ==> !r.ok && r.rasters == [] && r.calculation.None? && r.raised.None?
    ensures r.cleanedUp <==> w.referenceValid
    ensures r.raised.Some? ==> !r.ok
    ensures r.ok ==> r.rasters != [] && r.calculation.Some? && r.raised.None?
  {
    if !w.referenceValid then Run(false, [], None, None, false)
    else
      var t := TryBlock(names, output, w);
      Run(t.exit == ReturnValue(true), t.rasters, t.calculation,
          if t.exit.Exception? then Some(t.exit.error) else None, true)
  }

  /** The rasters collected are exactly the produced paths of the layers examined:
      all of them when no layer raised, else those before the first that raised. */
  lemma TaskRasters(names: seq<string>, output: string, w: World)
    requires |w.layers| == |names| && w.referenceValid
    ensures var r := TaskOutcome(names, output, w);
            match FirstThrow(w.layers)
            case None => r.rasters == ProducedPaths(w.tempdir, names, w.layers)
            case Some(k) => r.rasters == ProducedPaths(w.tempdir, names[..k], w.layers[..k])
                            && r.raised == Some(Step(w.layers[k]).error) && r.calculation.None?
  {
    ScanMatchesReference(w.tempdir, names, w.layers);
  }

  /** `task()` returns True exactly when the reference raster is valid, no layer
      raised, at least one raster was produced, the calculator result is truthy
      and the output file exists. */
  lemma TaskSucceedsIff(names: seq<string>, output: string, w: World)
    requires |w.layers| == |names|
    ensures TaskOutcome(names, output, w).ok <==>
              w.referenceValid && FirstThrow(w.layers).None?
              && ProducedPaths(w.tempdir, names, w.layers) != []
              && w.calculator == Returned(true) && w.outputExists
  {
    ScanMatchesReference(w.tempdir, names, w.layers);
  }

  /** With no raster produced the calculator is never invoked and the result is False. */
  lemma NoRasterNoCalculator(names: seq<string>, output: string, w: World)
    requires |w.layers| == |names| && w.referenceValid
    requires FirstThrow(w.layers).None? && ProducedPaths(w.tempdir, names, w.layers) == []
    ensures var r := TaskOutcome(names, output, w);
            !r.ok && r.calculation.None? && r.raised.None? && r.cleanedUp
  {
    ScanMatchesReference(w.tempdir, names, w.layers);
  }

  /** `self.exception` is set exactly when a layer call or the calculator raised. */
  lemma TaskRaisesIff(names: seq<string>, output: string, w: World)
    requires |w.layers| == |names|
    ensures TaskOutcome(names, output, w).raised.Some? <==>
              w.referenceValid &&
              (FirstThrow(w.layers).Some? ||
               (ProducedPaths(w.tempdir, names, w.layers) != [] && w.calculator.Raised?))
  {
    ScanMatchesReference(w.tempdir, names, w.layers);
  }

  // ---------------------------------------------------------------------------
  // The task object

  class RasterizeVectorTask {
    const description: string
    const gmlPath: string
    const layerNames: seq<string>
    const referenceRasterPath: string
    const rasterOutputPath: string
    const crs: string
    const height: int
    /** Set by the exception handler of `task()`. */
    var exception: Option<Failure>

    constructor (description: string, gmlPath: string, layerNames: seq<string>,
                 referenceRasterPath: string, rasterOutputPath: string, crs: string,
                 height: int := 10)
      ensures this.description == description && this.gmlPath == gmlPath
      ensures this.layerNames == layerNames && this.referenceRasterPath == referenceRasterPath
      ensures this.rasterOutputPath == rasterOutputPath && this.crs == crs
      ensures this.height == height && exception.None?
    {
      this.description := description;
      this.gmlPath := gmlPath;
      this.layerNames := layerNames;
      this.referenceRasterPath := referenceRasterPath;
      this.rasterOutputPath := rasterOutputPath;
      this.crs := crs;
      this.height := height;
      exception := None;
    }

    /** The try block of `task()`: the layer loop, then the expression and the
        calculator call. */
    method RunTryBlock(w: World) returns (t: TryRun)
      requires |w.layers| == |layerNames|
      ensures t == TryBlock(layerNames, rasterOutputPath, w)
    {
      var rasters: seq<string> := [];
      for i := 0 to |layerNames|
        invariant Scan(w.tempdir, layerNames[..i], w.layers[..i]) == Progress(rasters, None)
      {
        var name, outcome := layerNames[i], w.layers[i];
        assert layerNames[..i + 1][..i] == layerNames[..i] && w.layers[..i + 1][..i] == w.layers[..i];
        if outcome.load.Raised? {
          ScanSticky(w.tempdir, layerNames, w.layers, i + 1);
          return TryRun(Exception(outcome.load.error), rasters, None);
        }
        if !outcome.load.truthy {
          continue;  // failed to load the layer
        }
        if outcome.reproject.Raised? {
          ScanSticky(w.tempdir, layerNames, w.layers, i + 1);
          return TryRun(Exception(outcome.reproject.error), rasters, None);
        }
        if !outcome.reproject.truthy {
          continue;  // failed to reproject the layer
        }
        if outcome.reload.Raised? {
          ScanSticky(w.tempdir, layerNames, w.layers, i + 1);
          return TryRun(Exception(outcome.reload.error), rasters, None);
        }
        // an invalid reprojected layer is logged and rasterized all the same
        var tempRasterPath := RasterPath(w.tempdir, name);
        if outcome.rasterize.Raised? {
          ScanSticky(w.tempdir, layerNames, w.layers, i + 1);
          return TryRun(Exception(outcome.rasterize.error), rasters, None);
        }
        if outcome.rasterize.truthy {
          rasters := rasters + [tempRasterPath];
        }
      }
      assert layerNames[..|layerNames|] == layerNames && w.layers[..|w.layers|] == w.layers;
      if rasters == [] {
        return TryRun(ReturnValue(false), [], None);  // no rasters were created
      }
      var expression := "";
      for i := 0 to |layerNames|
        invariant expression == Accumulated(layerNames[..i])
      {
        assert layerNames[..i + 1][..i] == layerNames[..i];
        expression := expression + Term(layerNames[i]) + " + ";
      }
      assert layerNames[..|layerNames|] == layerNames;
      expression := RStrip(expression, StripChars);
      var params := CalcParams(rasters, expression, rasterOutputPath);
      match w.calculator {
        case Raised(e) =>
          return TryRun(Exception(e), rasters, Some(params));
        case Returned(result) =>
          return TryRun(ReturnValue(result && w.outputExists), rasters, Some(params));
      }
    }

    /** `task()`: check the reference raster, run the try block, store a caught
        exception in `exception`, and remove the temporary directory on every exit
        from the try block. */
    method Task(w: World) returns (r: Run)
      requires |w.layers| == |layerNames|
      modifies this
      ensures r == TaskOutcome(layerNames, rasterOutputPath, w)
      ensures exception == if r.raised.Some? then r.raised else old(exception)
    {
      // tempdir := tempfile.mkdtemp() is w.tempdir
      if !w.referenceValid {
        return Run(false, [], None, None, false);  // failed to load the reference raster
      }
      var t := RunTryBlock(w);
      var ok := false;
      var raised: Option<Failure> := None;
      match t.exit {
        case ReturnValue(value) =>
          ok := value;
        case Exception(e) =>
          exception := Some(e);
          raised := Some(e);
          ok := false;
      }
      var cleanedUp := true;  // finally: shutil.rmtree(tempdir)
      r := Run(ok, t.rasters, t.calculation, raised, cleanedUp);
    }
  }
}
