# map-renderer: the message callback and the render plan, in Dafny

The map-renderer service listens on the `weather_events` topic exchange. A
`grib.downloaded` event names a GRIB2 file. For every parameter (`t2m`,
`apcp`, `synoptic`) and every configured region, the service renders a PNG,
uploads it to object storage and publishes a `map.generated` event. A
`map.deleted` event asks for one stored map to be removed. After the work,
the service acknowledges the inbound message. An AMQP error is re-raised.
Any other error is logged, and the message stays unacknowledged.

This project models two pieces of that service.

- **The callback**, as a pure function `Callback.Handle`. It takes a
  delivery (routing key, delivery tag, decoded JSON body), the ordered list
  of configured regions, and the outcomes of every external call (`Env`).
  It returns the trace of effects the callback performs: `Render`, `Upload`,
  `Publish`, `KeepAlive`, `Delete`, and exactly one terminal effect, which is
  `Ack`, `Raise` (AMQP error re-raised) or `Drop` (other error logged).
  - An effect is in the trace only once its call returned normally.
  - The pure parts are in module `Jobs`: the forecast hour taken from the
    path, the parameter × region job matrix, output path, object key and
    message.
  - Python's `str.split` is in `Strings`. The decoded JSON values, with
    Python's `str()` and truthiness, are in `Payload`.
- **`Renderer.generate_map`**, reduced to the plan it chooses: the cfgrib
  `shortName` filter, the map extent and the data layer. It is wrapped in a
  total function that always returns the output path. On any failure it
  leaves a placeholder image at that path.

The external calls are parameters of `Env`:

- the rendering backend (`Renderer.Backend`), with three outcomes:
  whether `xr.open_dataset` succeeds; whether `plt.figure` and `plt.axes`
  succeed, which run before the bounds are read; and whether everything
  drawn and saved after the extent succeeds;
- `Storage.upload_file`'s boolean result (it catches every `Exception`
  itself and returns `False`);
- `ch.basic_publish`;
- `connection.process_data_events`;
- `storage.delete_file`;
- `ch.basic_ack`.

The per-job calls are keyed by the job. Within one event, jobs are distinct
whenever region names are (`Jobs.MatrixJobsDistinct`).

The shown `Storage` class defines no `delete_file`. A `map.deleted` message
with a truthy `url` therefore raises `AttributeError` and ends unacknowledged.
`CallbackProperties.DeleteOutcome` states both this outcome and the outcome of
a storage whose delete succeeds.

The forecast hour follows the code. It is `file_path.split('.f')[-1]`, and
the model plays no part. When `.f` does not occur, the whole path is returned.
`"000"` is produced only when `file_path` is not a string, because `split`
then raises and the bare `except` supplies the default. `src/main.py` has
no `_<N>h` parsing and no zero-padding: a path such as
`ecmwf_ifs_0p25_20251225_00z_3h.grib2` holds no `.f`, so its forecast hour
is the whole path (`Jobs.ForecastHour`, third ensures).

## Model

| member | source | states |
|---|---|---|
| `Strings.Split` | src/main.py:64 | `split` with a non-empty separator gives at least one piece, and no piece contains the separator |
| `Strings.JoinSplit` | src/main.py:64 | joining the pieces of `split(sep)` back with `sep` gives the original text |
| `Strings.LastPieceSpec` | src/main.py:64 | `split(sep)[-1]` holds no `sep`; when `sep` occurs, the text ends with `sep` followed by that piece; otherwise the piece is the whole text |
| `Strings.JoinSnoc` | src/main.py:74-82 | joining pieces with one more piece appended is the old join, the separator, and the new piece |
| `Strings.SplitJoin` | src/main.py:82 | splitting a join of pieces that lack a one-character separator on that separator gives the pieces back |
| `Payload.Decimal` | src/main.py:82 | `str()` of a natural number is a non-empty run of decimal digits with a leading `0` only for zero |
| `Payload.DecimalRoundTrip` | src/main.py:82 | the decimal digits an integer field is formatted with read back as the same number |
| `Payload.FormatInt` | src/main.py:82 | `str()` of an integer reads back as that integer, starts with `-` exactly when it is negative, and has no leading zero unless it is zero |
| `Payload.Format` | src/main.py:82 | an integer field is written as digits that read back as that integer; a string field is written as itself |
| `Payload.TruthyIffNotFalsy` | src/main.py:108 | a decoded value is truthy exactly when it is not `None`, `False`, zero, the empty string, or an empty list or dictionary |
| `Lookup.FirstMissing` | src/main.py:56-59 | no key is reported iff every listed key is present; a reported key is absent and every key listed before it is present |
| `Lookup.FirstMissingAt` | src/main.py:56-59 | when key `i` is the first absent one, it is exactly the key reported |
| `Jobs.ForecastHour` | src/main.py:61-66 | for a string path the hour holds no `.f`; the path ends with `.f` + hour when `.f` occurs; the hour is the whole path when it does not; a non-string path gives `"000"` |
| `Jobs.HourFollowsLastMarker` | src/main.py:64 | the hour starts right after the LAST `.f` of the path: a `.f` starts at `len - len(hour) - 2`, and no `.f` starts later |
| `Jobs.MarkerSuffixUnique` | src/main.py:64 | at most one suffix of a path follows a `.f` without containing one, so the hour is determined by that property alone |
| `Jobs.HourOfMarkedPath` | src/main.py:61-64 | any path `prefix + ".f" + h`, where `h` holds no `.f`, has hour `h`, whatever the prefix (and whatever the model) |
| `Jobs.GfsExampleHour` | src/main.py:61 | `gfs.t12z.pgrb2.0p25.f003` has hour `003` |
| `Jobs.Matrix` | src/main.py:71-72 | the nested loops visit `RowStart(len(parameters), len(regions))` jobs |
| `Jobs.MatrixLength` | src/main.py:69-72 | the job matrix has exactly len(parameters) × len(regions) jobs |
| `Jobs.MatrixAt` | src/main.py:71-72 | parameter `i` crossed with region `j` sits at position `RowStart(i, len(regions)) + j` |
| `Jobs.RowStartIsProduct` | src/main.py:71-72 | row `i` of a matrix `w` jobs wide starts at `i × w` |
| `Jobs.MatrixOrder` | src/main.py:69-72 | parameter-major, then region order: parameter `i` crossed with region `j` is the job at position `RowStart(i, len(regions)) + j`, and that row start is `i × len(regions)` |
| `Jobs.ShownParametersMatrix` | src/main.py:69-72 | with the three fixed parameters, there are three jobs per region |
| `Jobs.MatrixMembers` | src/main.py:71 | every job's parameter is one of the listed parameters |
| `Jobs.MatrixJobsDistinct` | src/main.py:71-72 | with distinct parameters and distinct region names, no two jobs share both parameter and region name |
| `Jobs.ParametersWellFormed` | src/main.py:69 | the fixed parameters are pairwise distinct and slash-free |
| `Jobs.OutputPathFields` | src/main.py:74-75 | the local file is `/tmp/` followed by parameter, forecast hour and region name joined with `_`, then `.png` |
| `Jobs.ObjectKeyFields` | src/main.py:82 | the object key is `str()` of model, run date and run hour, the parameter, and `<hour>_<region>.png`, joined with `/`; when no component holds a `/`, splitting the key on `/` gives the five components back |
| `Jobs.SlashFreeHead` | src/main.py:82 | a slash-free head is recovered from `head + "/" + tail`, and so is the tail |
| `Jobs.KeyDeterminesJob` | src/main.py:82 | within one event, equal object keys mean equal parameter and equal region name, for slash-free parameters |
| `Jobs.KeysDistinct` | src/main.py:81-83 | given distinct region names, the object keys of one event's jobs are pairwise distinct |
| `Jobs.Messages` | src/main.py:86-94 | one message per job, in job order, message `k` belonging to job `k` |
| `Jobs.MessagesCopyEvent` | src/main.py:86-94 | every message copies `model`, `run_date` and `run_hour`, carries its job's parameter and region name, shares the one forecast hour, and announces its job's object key as `url` |
| `Callback.JobStep` | src/main.py:74-103 | one job renders to `/tmp/<param>_<hour>_<region>.png`, uploads that path under the object key, and records the upload's result; it publishes the job's message, whose `url` equals the upload key, and keeps the connection alive; it stops at and reports the first of publish / keep-alive that raises |
| `Callback.JobStepPublishes` | src/main.py:95-99 | a job publishes exactly its own message, or nothing when `basic_publish` raises |
| `Callback.PublishedAppend` | src/main.py:71-103 | the publications of two stretches of effects are those of the first followed by those of the second |
| `Callback.RunJobs` | src/main.py:71-103 | no effect of the loop is terminal; no error iff every publish and keep-alive goes through; the publications are always a prefix of the jobs' messages, and all of them, with 4 effects per job, when nothing raised |
| `Callback.FirstFailure` | src/main.py:95-103 | the index of the first job whose publish or keep-alive raises: every job before it goes through, and it is `len(jobs)` when none raises |
| `Callback.RunJobsUntilFailure` | src/main.py:71-103 | with no failing job the loop's effects are every job's four effects in order and nothing escapes; otherwise they are the full effects of the jobs before the first failing job `k`, then job `k`'s effects up to the call that raised, and job `k`'s exception escapes |
| `Callback.RunJobsThrough` | src/main.py:71-103 | the no-failure half of `RunJobsUntilFailure` |
| `Callback.RunJobsStops` | src/main.py:71-103 | the failure half of `RunJobsUntilFailure` |
| `Callback.StepsPublished` | src/main.py:71-103 | jobs that all go through publish exactly their messages, in order, with four effects each |
| `Callback.RunJobsPublished` | src/main.py:71-103 | the loop publishes the messages of the jobs before the first failing job `k`, plus job `k`'s own message exactly when its `basic_publish` went through |
| `Callback.JobEffects` | src/main.py:74-103 | a job that goes through records a render, an upload, a publish and a keep-alive, and the published message's `url` is the upload key |
| `Callback.JobStepEffects` | src/main.py:74-103 | a job whose publish and keep-alive go through records exactly those four effects |
| `Callback.StepsLayout` | src/main.py:71-103 | when every job goes through, job `i`'s four effects sit at positions `4i` to `4i + 3` |
| `Callback.Acknowledge` | src/main.py:111-112 | the effects so far stay a prefix; the run ends in `Ack` with the delivery tag iff `basic_ack` goes through; otherwise it reports `basic_ack`'s exception and adds nothing |
| `Callback.MissingField` | src/main.py:56-59 | none exactly when `file_path`, `model`, `run_date` and `run_hour` are all present; otherwise a required field the message lacks, and every field read before it is present |
| `Callback.RunEvent` | src/main.py:61-112 | an event's run has no `Raise`/`Drop` effect, any `Ack` is the last effect and carries the delivery tag, and the `Ack` is there exactly when nothing raised |
| `Callback.Downloaded` | src/main.py:53-59 | the same guarantee for the `grib.downloaded` branch, including the early `TypeError` / `KeyError` exits |
| `Callback.Deleted` | src/main.py:105-112 | the same guarantee for the `map.deleted` branch |
| `Callback.Process` | src/main.py:50-112 | the same guarantee for the whole `try` body, whatever the routing key |
| `Callback.Terminal` | src/main.py:114-121 | an escaped exception is re-raised exactly when it is an AMQP error, and dropped otherwise, keeping the exception |
| `Callback.Close` | src/main.py:114-121 | a run closed by the `except` clauses ends in exactly one terminal effect: `Ack` iff no exception escaped, `Raise` only for AMQP errors, `Drop` only for others |
| `Callback.Handle` | src/main.py:49-121 | the callback's trace: non-empty; one terminal effect, which is last; `Ack` (with the delivery tag) iff the `try` body raised nothing; `Raise` only for AMQP errors and `Drop` only for others, each with the exception that escaped |
| `CallbackProperties.DownloadedPublishesEveryJob` | src/main.py:69-112 | when every call goes through, a complete `grib.downloaded` message publishes exactly its jobs' messages in matrix order (3 × len(regions) of them), with 4 effects per job, and ends in `Ack` with its delivery tag |
| `CallbackProperties.AckedSteps` | src/main.py:69-112 | when every call goes through, the trace is every job's four effects in matrix order, then `Ack` |
| `CallbackProperties.AckedLayout` | src/main.py:69-112 | in every job's effects followed by `Ack`, parameter `i` crossed with region `j` owns positions `4(i × len(regions) + j)` to `+ 3` |
| `CallbackProperties.DownloadedTraceLayout` | src/main.py:69-112 | when every call goes through, the trace's effects `4(i × len(regions) + j)` to `+ 3` render map `(i, j)` to its output path, upload it under its object key, publish its message with that key as `url`, and keep the connection alive |
| `CallbackProperties.DownloadFailsAtJob` | src/main.py:71-121 | when job `k` is the first whose publish or keep-alive raises, the trace is the full effects of the jobs before it, job `k`'s effects up to the raising call, and `Raise(e)` for an AMQP error `e` or `Drop(e)` otherwise; no `Ack` occurs; the earlier jobs' messages are published, plus job `k`'s when its publish went through |
| `CallbackProperties.FailedTrace` | src/main.py:71-121 | the same trace, in two steps: the loop's effects, then the verdict on job `k`'s exception |
| `CallbackProperties.FailedPublished` | src/main.py:71-121 | the same publications, for the whole trace |
| `CallbackProperties.EndsInVerdict` | src/main.py:114-121 | non-terminal effects closed by the verdict on an exception hold no `Ack` and end in `Raise` for an AMQP error and `Drop` otherwise |
| `CallbackProperties.PublishedIsPrefix` | src/main.py:71-103 | whatever the external calls do, what one event publishes is a prefix of its messages in matrix order |
| `CallbackProperties.PublishedMessagesOfOneEvent` | src/main.py:56-94 | every published message copies the input's `model`, `run_date` and `run_hour` and carries the one forecast hour of `file_path`; with distinct region names no two carry the same `url` |
| `CallbackProperties.PrefixOfMessages` | src/main.py:86-94 | the same facts for any prefix of an event's messages |
| `CallbackProperties.UploadResultIgnored` | src/main.py:83-95 | changing every upload's result changes the trace only in the recorded results: the same messages are published and the same terminal effect ends it |
| `CallbackProperties.ProcessIgnoresUploads` | src/main.py:83-112 | the same for the `try` body: equal error, and effects equal once upload results are blanked |
| `CallbackProperties.RunJobsIgnoresUploads` | src/main.py:71-103 | the same for the job loop |
| `CallbackProperties.PublishedIgnoresUploads` | src/main.py:95-99 | blanking upload results leaves the publications alone |
| `CallbackProperties.DeletedNeverPublishes` | src/main.py:105-112 | a `map.deleted` message never publishes; its trace has at most two effects; a delete is only ever the first effect, and only of the body's truthy `url` |
| `CallbackProperties.DeletedWithoutUrlOnlyAcks` | src/main.py:107-112 | without a truthy `url`, a `map.deleted` object is only acknowledged |
| `CallbackProperties.DeleteOutcome` | src/main.py:107-112 | with a truthy `url`, the shown storage (no `delete_file`) gives `[Drop(AttributeError)]`, with no ack; a delete that goes through gives `[Delete(url)]` followed by the acknowledgement attempt |
| `CallbackProperties.MissingFieldDropped` | src/main.py:56-59 | a `grib.downloaded` object lacking a field is dropped unacknowledged with the `KeyError` of the field `MissingField` reports |
| `CallbackProperties.NonObjectDropped` | src/main.py:53-107 | a JSON body that is not an object is dropped unacknowledged: `TypeError` on `grib.downloaded`, `AttributeError` on `map.deleted` |
| `CallbackProperties.UnparsableDropped` | src/main.py:51 | a body `json.loads` rejects is dropped unacknowledged, whatever the routing key |
| `CallbackProperties.OtherRoutingKeyOnlyAcks` | src/main.py:53-112 | any other routing key leads only to the acknowledgement attempt |
| `Renderer.LayerFor` | src/renderer.py:27-81 | the data layer follows the filter: no layer iff no filter, the temperature layer iff filter `2t`, the precipitation layer iff filter `tp` |
| `Renderer.Extent` | src/renderer.py:39-43 | falsy bounds set no extent; truthy bounds lacking a key fail with the first absent key in `lon_min, lon_max, lat_min, lat_max` order; otherwise the extent is those four coordinates in that order |
| `Renderer.GenerateMap` | src/renderer.py:24-93 | always returns `output_path`; a chart is drawn iff the dataset opens, the figure and axes are made, truthy bounds carry all four keys, and the drawing succeeds; an open failure or an axes failure leaves a placeholder; every chart has coastline and borders |
| `RendererProperties.ChartFollowsParameter` | src/renderer.py:27-62 | filter `shortName = "2t"` exactly for `t2m`, `"tp"` exactly for `apcp`, no filter otherwise; the temperature layer exactly for `t2m`, the precipitation layer exactly for `apcp`, and no layer exactly when unfiltered |
| `RendererProperties.ChartExtent` | src/renderer.py:39-43 | the extent is set iff `region_bounds` is truthy, as `[lon_min, lon_max, lat_min, lat_max]` |
| `RendererProperties.MissingBoundGivesPlaceholder` | src/renderer.py:33-93 | truthy bounds lacking a key leave a placeholder naming the first missing key, once the dataset opened and the axes were made |
| `RendererProperties.SynopticHasNoLayer` | src/renderer.py:27-62 | the `synoptic` chart has no filter and no data layer, only the base features |

## Left out

- Connecting to the broker with its retry loop, and declaring the exchange, queue and bindings (`src/main.py:9-47`, `123-127`). This is network plumbing and an unbounded liveness loop.
- Every `print`. Logging has no effect on the trace.
- Opening the dataset and all xarray, cartopy and matplotlib work (`src/renderer.py:33-84`). This is foreign code over floating point. It includes the Kelvin to Celsius conversion, the cyclic point, contour levels, colour maps, titles, `savefig` and `dpi`. Its outcome is the `Backend` parameter: whether the dataset opens, whether the figure and axes are made (before the bounds are read), and whether the drawing after the extent succeeds. Which of the later drawing calls failed is not distinguished. Bounds are kept as opaque `real` values.
- Exceptions that are not `Exception` subclasses (`KeyboardInterrupt`, `SystemExit`, `GeneratorExit`). They escape both `except` clauses of the callback and the `except Exception` of `generate_map` and `upload_file`. The model's `Exception` type holds only `Exception` subclasses, so `Drop` covers exactly what `except Exception` catches.
- `_create_dummy_image` (`src/renderer.py:95-102`) is assumed to succeed. A failure while writing the placeholder would escape `generate_map`; that case is not modelled.
- `Storage` (`src/storage.py`): the MinIO client, the bucket check and `fput_object`. Upload is an external call returning a boolean. Delete is an external call that may raise.
- `src/config.py`: reading environment variables. The regions are a parameter: an ordered list of names with opaque bounds.
- `src/preload_maps.py`: a network download of shapefiles, not used by the callback.
- Payload.Format: `str()` of a float or of a nested list or object is not computed. These values carry their Python text, and formatting and truthiness read that text.
- The JSON text itself. `Body` is what `json.loads` produced: an error, a non-object, or an object of decoded values.
- Concurrency, worker pools, warm-up and per-model (ecmwf) forecast-hour parsing. None of these exists in `src/main.py`, and the model follows the code.
- Exceptions from `os.path.join` and from f-string formatting. These cannot happen for the values modelled.
