# Rasterize and merge tasks of the drainage pipeline, in Dafny

The drainage pipeline prepares geospatial data with QGIS. Each stage is a QGIS task.
This project models the decision logic of two of those tasks. Every QGIS, GDAL and
file-system call is an input whose outcome the model does not compute.

- `RasterizeVectorTask.task()` works through the named layers of a GML file. For each
  layer it loads the layer, reprojects it and rasterizes it into a temporary directory.
  A layer that fails to load, or whose reprojection result is falsy, is skipped. A
  reprojected layer that is invalid is only logged, and rasterization is still tried.
  The paths of the rasters produced are collected in order. A raster-calculator
  expression is then built: one term `"<name>_raster@1"` per layer name, joined by
  ` + `. It names every layer, including skipped ones. The task returns True only when
  the calculator result is truthy and the output file exists. A caught exception is
  stored in `exception`. The temporary directory is removed on every exit from the
  try block. It is not removed on the early return for an invalid reference raster,
  because that return comes before the try block.
- `MergeVectorLayersTask` keeps `layer_names` only if it is a list of at least two
  names. `task()` resolves each name to the first layer of that name in the project's
  registry, and fails if any name is missing. It then merges the layers. On success
  it renames the result to `output_name` and appends it to the registry.

Files:

- `builtins.dfy` (module `Builtins`): `Option`, `Failure` (an exception), `Call` (an
  external call's outcome: a truthy or falsy return, or a raise), `str.rstrip` and
  POSIX `os.path.join`.
- `rasterize_vector_task.dfy` (module `RasterizeVector`): the world of call outcomes,
  one iteration of the layer loop (`Step`, `Advance`), the loop (`Scan`), its
  reference definitions (`ProducedPaths`, `FirstThrow`, `Reference`), the expression
  (`Accumulated`, `Expression`, reference `SumExpression`), and the whole task as a
  function (`TryBlock`, `TaskOutcome`). The class `RasterizeVectorTask` holds the
  imperative version: `RunTryBlock` has the two loops, and `Task` handles the
  except and finally clauses. Both are proved equal to the functions.
- `merge_vectors_task.dfy` (module `MergeVectors`): name validation, first-match
  lookup, all-or-nothing resolution, the `Project` registry class and the
  `MergeVectorLayersTask` class.

Three facts about the code that a reader might not expect:

- `MergeVectorLayersTask.__init__` does not reject fewer than two names: it stores
  None, and `task()` then returns False.
- `RasterizeVectorTask` checks the reference raster when `task()` runs, not in
  `__init__`. It does not check that `layer_names` is non-empty: with no names, no
  raster is produced and `task()` returns False.
- Progress values are forwarded to the progress bar without clamping.

## Model

| member | source | states |
|---|---|---|
| `Builtins.RStrip` | app/tasks/rasterize_vector_task.py:114 | the result is a prefix of the input that does not end in a stripped character, and everything removed is a stripped character (the longest such suffix is removed) |
| `Builtins.PathJoin` | app/tasks/rasterize_vector_task.py:90 | an absolute file name is returned unchanged; otherwise the result is the directory and the file name joined by exactly one `/`, none being added when the directory is empty or already ends in `/`; the result always ends with the file name |
| `RasterizeVector.RasterPath` | app/tasks/rasterize_vector_task.py:90 | described by `RasterPathShape` |
| `RasterizeVector.RasterPathShape` | app/tasks/rasterize_vector_task.py:90 | the raster path ends in `<name>_raster.tif`, and for a directory with no trailing `/` and a relative name it is exactly `<tempdir>/<name>_raster.tif` |
| `RasterizeVector.Term` | app/tasks/rasterize_vector_task.py:113 | described by `TermShape` |
| `RasterizeVector.TermShape` | app/tasks/rasterize_vector_task.py:113 | a term is a quote, the layer name, then `_raster@1` and a closing quote |
| `RasterizeVector.Step` | app/tasks/rasterize_vector_task.py:59-108 | described by `SkipCauses` and `InvalidReprojectionStillRasterized`; compared with the imperative loop through `RunTryBlock` |
| `RasterizeVector.SkipCauses` | app/tasks/rasterize_vector_task.py:60-79 | a layer that does not load, or whose reprojection result is falsy, is skipped |
| `RasterizeVector.InvalidReprojectionStillRasterized` | app/tasks/rasterize_vector_task.py:84-105 | the validity of the reprojected layer does not change what happens to the layer; rasterization is attempted and its result decides |
| `RasterizeVector.SkippedLayerAddsNothing` | app/tasks/rasterize_vector_task.py:60-79 | removing a skipped layer from the input leaves the produced raster paths unchanged |
| `RasterizeVector.ProducedPathsMembers` | app/tasks/rasterize_vector_task.py:90-107 | a path is produced if and only if it is `<tempdir>/<name>_raster.tif` for some layer whose rasterize result was truthy |
| `RasterizeVector.FirstThrow` | app/tasks/rasterize_vector_task.py:57-107 | the index returned is the first layer whose processing raises; no layer before it raises, and none raises when no index is returned |
| `RasterizeVector.Advance` | app/tasks/rasterize_vector_task.py:59-108 | described by `AdvanceContributes` |
| `RasterizeVector.AdvanceContributes` | app/tasks/rasterize_vector_task.py:59-108 | after an exception an iteration changes nothing; otherwise it appends exactly the layer's contribution (its raster path when rasterize returned a truthy result, else nothing) and raises exactly when one of the layer's calls raised |
| `RasterizeVector.Scan` | app/tasks/rasterize_vector_task.py:58-108 | described by `ScanMatchesReference`, `ScanSticky` and `ScanBounded` |
| `RasterizeVector.ScanBounded` | app/tasks/rasterize_vector_task.py:58-108 | the loop collects at most one raster path per entry of `layer_names` |
| `RasterizeVector.ScanSticky` | app/tasks/rasterize_vector_task.py:57-107 | once an exception is raised inside the layer loop, no later layer is examined |
| `RasterizeVector.ScanMatchesReference` | app/tasks/rasterize_vector_task.py:57-107 | the layer loop collects exactly the produced paths of the layers before the first one that raises (all layers if none raises), in `layer_names` order, and records that layer's exception |
| `RasterizeVector.SumExpression` | app/tasks/rasterize_vector_task.py:111-114 | the joined expression is empty exactly for no names, and otherwise ends with the closing quote of the last term, so it has no trailing ` + ` |
| `RasterizeVector.Accumulated` | app/tasks/rasterize_vector_task.py:111-113 | described by `AccumulatedIsSumPlusSeparator` |
| `RasterizeVector.AccumulatedIsSumPlusSeparator` | app/tasks/rasterize_vector_task.py:111-113 | for at least one name, the `+=` loop leaves the terms joined by ` + ` followed by one trailing ` + ` |
| `RasterizeVector.StripSeparator` | app/tasks/rasterize_vector_task.py:114 | `rstrip(" +")` removes a trailing ` + ` and stops at the first character that is neither a space nor a plus sign |
| `RasterizeVector.ExpressionIsSum` | app/tasks/rasterize_vector_task.py:111-114 | for every list of names, stripping trailing spaces and plus signs from the `+=` accumulation gives exactly the terms joined by ` + ` (the empty string for no names) |
| `RasterizeVector.Expression` | app/tasks/rasterize_vector_task.py:111-114 | the expression handed to the calculator equals the reference join `SumExpression` |
| `RasterizeVector.SingleNameExpression` | app/tasks/rasterize_vector_task.py:111-114 | for a single name the expression is just `"<name>_raster@1"` |
| `RasterizeVector.ExpressionNamesEveryLayer` | app/tasks/rasterize_vector_task.py:112-113 | the expression mentions the term of every entry of `layer_names`, including layers for which no raster was produced |
| `RasterizeVector.TryBlock` | app/tasks/rasterize_vector_task.py:57-135 | the try block returns True only with at least one raster, a truthy calculator result and an existing output; with no raster the calculator is not called; the calculator receives the collected rasters, the joined expression and the output path |
| `RasterizeVector.TaskOutcome` | app/tasks/rasterize_vector_task.py:45-142 | an invalid reference raster gives False with no raster, no calculator call and no exception; the temporary directory is removed exactly when the try block was entered; a stored exception means False |
| `RasterizeVector.TaskRasters` | app/tasks/rasterize_vector_task.py:58-107 | the collected rasters are the produced paths of all layers, or of the layers before the first one that raised, in which case the calculator is not called |
| `RasterizeVector.TaskSucceedsIff` | app/tasks/rasterize_vector_task.py:122-132 | `task()` returns True if and only if the reference raster is valid, no layer raises, at least one raster is produced, the calculator result is truthy and the output exists |
| `RasterizeVector.NoRasterNoCalculator` | app/tasks/rasterize_vector_task.py:133-135 | when no raster is produced and nothing raises, the result is False, the calculator is not called and the directory is removed |
| `RasterizeVector.TaskRaisesIff` | app/tasks/rasterize_vector_task.py:137-140 | an exception is stored if and only if the reference raster is valid and either a layer call raises or, with rasters produced, the calculator raises |
| `RasterizeVector.RasterizeVectorTask.constructor` | app/tasks/rasterize_vector_task.py:20-34 | the fields hold the arguments, with a burn height of 10 by default, and no exception is stored |
| `RasterizeVector.RasterizeVectorTask.RunTryBlock` | app/tasks/rasterize_vector_task.py:57-135 | the loop with its skips, appends and early exits, the expression loop with its strip, and the calculator decision compute exactly `TryBlock` |
| `RasterizeVector.RasterizeVectorTask.Task` | app/tasks/rasterize_vector_task.py:45-142 | the task computes exactly `TaskOutcome`; `exception` becomes the raised exception and is otherwise unchanged |
| `MergeVectors.ValidatedNames` | app/tasks/merge_vectors_task.py:11-12 | the names are kept unchanged exactly when the argument is a list of at least two names, and are otherwise None |
| `MergeVectors.FirstMatch` | app/tasks/merge_vectors_task.py:27 | the index returned holds a layer with the name and no earlier layer has it; when no index is returned, no layer has the name |
| `MergeVectors.Lookup` | app/tasks/merge_vectors_task.py:27 | a layer is found exactly when some registry layer has the name, and the layer found carries that name |
| `MergeVectors.Resolve` | app/tasks/merge_vectors_task.py:23-31 | resolution succeeds exactly when every name is found; the result has one layer per name, in order, each the first match for its name |
| `MergeVectors.ResolvedNamesInOrder` | app/tasks/merge_vectors_task.py:23-31 | the i-th resolved layer is named by the i-th name |
| `MergeVectors.LookupAfterAppend` | app/tasks/merge_vectors_task.py:27 | in the model's registry, which lists an added layer last, first match wins: adding a layer never changes what an already-resolving name resolves to, even when the new layer has that name |
| `MergeVectors.LookupIgnoresOtherNames` | app/tasks/merge_vectors_task.py:27 | wherever a new layer is listed, a name other than the new layer's resolves to the same layer as before, or still to none |
| `MergeVectors.Project.AddMapLayer` | app/tasks/merge_vectors_task.py:50 | the layer is appended after the existing registry layers |
| `MergeVectors.MergeVectorLayersTask.constructor` | app/tasks/merge_vectors_task.py:9-15 | `layerNames` is the validated argument, the other fields hold the arguments, and no merged layer exists yet |
| `MergeVectors.MergeVectorLayersTask.Task` | app/tasks/merge_vectors_task.py:17-55 | with no names, or a name missing from the registry, the result is False and no merge is requested; otherwise the merge gets the resolved layers in order; the result is True exactly when the merge returns; then the merged layer, renamed to `output_name`, is stored and appended to the registry; on any False nothing changes |

## Left out

- `app/drainage_lines.py`: QGIS start-up, log and CSV writing, writing layers to disk, wiring tasks with `addSubTask` and `QgsTaskManager`, and waiting on the event loop. These are I/O, or calls into QGIS's task scheduler, which is not part of this model.
- The algorithms `native:reprojectlayer`, `gdal:rasterize`, `native:rastercalc` and `native:mergevectorlayers`: only their outcome (truthy, falsy or raised, or the merged layer) is modelled.
- Layer validity and `os.path.exists`: boolean inputs, one set per layer.
- The parameter dictionaries of reprojection and rasterization: CRS, burn height, width, height and extent are not modelled. Only the output path of each raster is modelled.
- `tempfile.mkdtemp` is an input directory name; `shutil.rmtree` is the `cleanedUp` flag.
- Progress forwarding (`progress_changed`, `ProgressBar`, `QgsProcessingFeedback`) and all logging.
- `BaseTask` is not part of this model. `exception` is assumed to start as None.
- Exceptions outside the modelled calls are not modelled. These include raises from `QgsRasterLayer` before the try block, from logging, from `crs.toProj()` and from `shutil.rmtree`.
- `MergeVectors.Project.AddMapLayer`: QGIS may refuse a layer, for example one whose id is already registered. The model always appends, because the registry's code is not part of this model.
- `MergeVectors.MergeVectorLayersTask.Task`: layers are values, not shared objects. The merged layer is new, so renaming it in place and renaming a copy are the same, but aliasing between registry layers is not modelled.
- The order of `mapLayers().values()` is taken as the order of the `Project.layers` sequence.
- `MergeVectors.Project.AddMapLayer`: the model lists an added layer after all existing ones. QGIS's `mapLayers()` is keyed by layer id, so a newly added layer can be listed before an older layer of the same name, and the lookup at app/tasks/merge_vectors_task.py:27 would then return the new layer. `LookupAfterAppend` holds only for the model's order; `LookupIgnoresOtherNames` holds wherever the layer is listed.
- `layer_names` of the rasterize task is a sequence of strings. Other iterables are not modelled. The `isinstance(..., list)` check of the merge task is modelled by `NamesArg`.
