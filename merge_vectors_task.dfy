/** `MergeVectorLayersTask`: look up the named layers in the project, merge them
    with the processing framework, rename the result and add it to the project.

    The project's layer registry (`QgsProject.instance()`) is an explicit `Project`
    object holding the layers in the order the registry lists them; the merge
    algorithm is an input that either yields a new layer or raises. */
module MergeVectors {
  import opened Builtins

  /** A map layer as the registry lists it: its identity and its display name. */
  datatype MapLayer = MapLayer(id: string, name: string)

  /** The `layer_names` argument: a Python list of names, or some other value. */
  datatype NamesArg = ListArg(items: seq<string>) | OtherArg

  /** What `processing.run("native:mergevectorlayers", ...)` did: it produced a new
      layer (`result['OUTPUT']`), or it raised. */
  datatype MergeCall = Merged(output: MapLayer) | MergeRaised(error: Failure)

  /** The parameters handed to the merge algorithm. */
  datatype MergeParams = MergeParams(layers: seq<MapLayer>, crs: string, output: string)

  /** The merge writes to a temporary in-memory layer. */
  const MemoryOutput: string := "memory:"

  /** The constructor keeps `layer_names` only when it is a list of at least two names. */
  function ValidatedNames(arg: NamesArg): (r: Option<seq<string>>)
    ensures r.Some? ==> arg == ListArg(r.value) && |r.value| >= 2
    ensures r.None? ==> arg.OtherArg? || |arg.items| < 2
  {
    if arg.ListArg? && |arg.items| >= 2 then Some(arg.items) else None
  }

  /** The position of the first layer called `name`, if any. */
  function FirstMatch(layers: seq<MapLayer>, name: string): (r: Option<nat>)
    ensures r.Some? ==> r.value < |layers| && layers[r.value].name == name
    ensures r.Some? ==> forall j :: 0 <= j < r.value ==> layers[j].name != name
    ensures r.None? ==> forall j :: 0 <= j < |layers| ==> layers[j].name != name
  {
    if layers == [] then None
    else if layers[0].name == name then Some(0)
    else match FirstMatch(layers[1..], name)
      case None => None
      case Some(k) => Some(k + 1)
  }

  /** `next((l for l in layers if l.name() == name), None)`: the first layer called `name`. */
  function Lookup(layers: seq<MapLayer>, name: string): (r: Option<MapLayer>)
    ensures r.Some? <==> exists j :: 0 <= j < |layers| && layers[j].name == name
    ensures r.Some? ==> r.value.name == name && r.value in layers
  {
    match FirstMatch(layers, name)
    case None => None
    case Some(k) => Some(layers[k])
  }

  /** Every name resolved against the registry, or nothing when some name has no layer. */
  function Resolve(layers: seq<MapLayer>, names: seq<string>): (r: Option<seq<MapLayer>>)
    ensures r.Some? <==> forall i :: 0 <= i < |names| ==> Lookup(layers, names[i]).Some?
    ensures r.Some? ==> |r.value| == |names|
    ensures r.Some? ==> forall i :: 0 <= i < |names| ==> Some(r.value[i]) == Lookup(layers, names[i])
  {
    if names == [] then Some([])
    else match Lookup(layers, names[0])
      case None => None
      case Some(first) =>
        match Resolve(layers, names[1..])
        case None => None
        case Some(rest) => Some([first] + rest)
  }

  /** The resolved layers carry the requested names, in the requested order. */
  lemma ResolvedNamesInOrder(layers: seq<MapLayer>, names: seq<string>)
    requires Resolve(layers, names).Some?
    ensures var found := Resolve(layers, names).value;
            |found| == |names| && forall i :: 0 <= i < |names| ==> found[i].name == names[i]
  {
    var found := Resolve(layers, names).value;
    forall i | 0 <= i < |names| ensures found[i].name == names[i] {
      assert Some(found[i]) == Lookup(layers, names[i]);
    }
  }

  /** First match wins: in a registry that lists an added layer last, adding a layer
      never changes what a name that already resolved resolves to, even when the new
      layer has the same name. */
  lemma {:induction false} LookupAfterAppend(layers: seq<MapLayer>, extra: MapLayer, name: string)
    requires Lookup(layers, name).Some?
    ensures Lookup(layers + [extra], name) == Lookup(layers, name)
  {
    var all := layers + [extra];
    var k := FirstMatch(layers, name).value;
    assert all[k] == layers[k];
    assert forall j :: 0 <= j < k ==> all[j] == layers[j];
    var k' := FirstMatch(all, name);
    assert k'.Some?;
    assert k'.value == k;
  }

  /** Wherever the registry lists a new layer, a name other than the new layer's
      still resolves to the same layer as before, or still to none. */
  lemma {:induction false} LookupIgnoresOtherNames(layers: seq<MapLayer>, extra: MapLayer, pos: nat, name: string)
    requires pos <= |layers| && extra.name != name
    ensures Lookup(layers[..pos] + [extra] + layers[pos..], name) == Lookup(layers, name)
  {
    var all := layers[..pos] + [extra] + layers[pos..];
    match FirstMatch(layers, name)
    case None =>
      forall j | 0 <= j < |all| ensures all[j].name != name {
        if j < pos {
          assert all[j] == layers[j];
        } else if j > pos {
          assert all[j] == layers[j - 1];
        }
      }
    case Some(k) =>
      var k' := if k < pos then k else k + 1;
      assert all[k'] == layers[k];
      forall j | 0 <= j < k' ensures all[j].name != name {
        if j < pos {
          assert all[j] == layers[j];
        } else if j > pos {
          assert all[j] == layers[j - 1];
        }
      }
      var found := FirstMatch(all, name);
      assert found.Some? && found.value <= k';
      assert found.value == k';
  }

  /** The project's layer registry. */
  class Project {
    var layers: seq<MapLayer>

    constructor ()
      ensures layers == []
    {
      layers := [];
    }

    /** `addMapLayer`: the layer joins the registry after the existing ones. */
    method AddMapLayer(layer: MapLayer)
      modifies this
      ensures layers == old(layers) + [layer]
    {
      layers := layers + [layer];
    }
  }

  class MergeVectorLayersTask {
    const description: string
    const outputName: string
    const layerNames: Option<seq<string>>
    const crs: string
    var mergedLayer: Option<MapLayer>

    /** What the constructor establishes about `layerNames`. */
    ghost predicate Valid()
      reads this
    {
      layerNames.Some? ==> |layerNames.value| >= 2
    }

    constructor (description: string, outputName: string, layerNames: NamesArg, crs: string)
      ensures this.description == description && this.outputName == outputName
      ensures this.layerNames == ValidatedNames(layerNames) && this.crs == crs
      ensures mergedLayer.None? && Valid()
    {
      this.description := description;
      this.outputName := outputName;
      this.layerNames := ValidatedNames(layerNames);
      this.crs := crs;
      mergedLayer := None;
    }

    /** `task()`. Returns the task's result and the merge request it made, if any.
        Unless it returns True, neither the project nor `mergedLayer` changes. */
    method Task(project: Project, merge: MergeCall) returns (ok: bool, request: Option<MergeParams>)
      requires Valid()
      modifies this, project
      ensures layerNames.None? ==> !ok && request.None?
      ensures layerNames.Some? ==>
                var found := Resolve(old(project.layers), layerNames.value);
                (request.Some? <==> found.Some?)
                && (found.Some? ==> request == Some(MergeParams(found.value, crs, MemoryOutput)))
                && (ok <==> found.Some? && merge.Merged?)
      ensures ok ==> mergedLayer == Some(merge.output.(name := outputName))
                     && project.layers == old(project.layers) + [mergedLayer.value]
      ensures !ok ==> mergedLayer == old(mergedLayer) && project.layers == old(project.layers)
    {
      if layerNames.None? || layerNames.value == [] {
        return false, None;  // layer_names must be a list with at least two names
      }
      var names := layerNames.value;
      var layersToMerge: seq<MapLayer> := [];
      for i := 0 to |names|
        invariant |layersToMerge| == i
        invariant forall j :: 0 <= j < i ==> Lookup(project.layers, names[j]) == Some(layersToMerge[j])
      {
        var layer := Lookup(project.layers, names[i]);
        if layer.None? {
          return false, None;  // could not find a layer with this name
        }
        layersToMerge := layersToMerge + [layer.value];
      }
      var found := Resolve(project.layers, names);
      assert found.Some?;
      assert found.value == layersToMerge by {
        forall j | 0 <= j < |names| ensures found.value[j] == layersToMerge[j] {
          assert Some(found.value[j]) == Some(layersToMerge[j]);
        }
      }
      request := Some(MergeParams(layersToMerge, crs, MemoryOutput));
      match merge {
        case MergeRaised(_) =>
          ok := false;
        case Merged(output) =>
          mergedLayer := Some(output);
          mergedLayer := Some(output.(name := outputName));  // setName(output_name)
          project.AddMapLayer(mergedLayer.value);
          ok := true;
      }
    }
  }
}
