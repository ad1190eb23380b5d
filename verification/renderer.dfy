/**
 * `Renderer.generate_map` reduced to what it decides: which decoder filter
 * to open the source file with, which map extent to set, which data layer
 * to draw, and what ends up at the output path. Opening the dataset and all
 * drawing are external; their outcome is the `Backend` parameter.
 */
module Renderer {
  import opened Wrappers
  import opened Lookup

  /** A region's bounds dictionary: key name to coordinate. */
  type Bounds = map<string, real>

  /** The data layer drawn over the base map. */
  datatype Layer = NoLayer | Temperature | Precipitation

  /** Base-map features, drawn on every chart. */
  datatype Feature = Coastline | Borders

  /** What a successful chart is made of. */
  datatype Plan = Plan(filter: Option<string>, extent: Option<seq<real>>, layer: Layer)

  /**
   * Outcome of the external work: `xr.open_dataset`; `plt.figure` and
   * `plt.axes`, which run before the bounds are read; and everything drawn
   * and saved after that.
   */
  datatype Backend = Backend(opens: bool, makesAxes: bool, draws: bool)

  /** Why a placeholder image was written instead of a chart. */
  datatype RenderError = OpenFailed | MissingBound(key: string) | DrawFailed

  /** The image saved at the output path. */
  datatype Image = Chart(plan: Plan, features: seq<Feature>) | Placeholder(reason: RenderError)

  /** The returned path together with the image written at it. */
  datatype Rendered = Rendered(path: string, image: Image)

  /** The keys read out of the bounds, in the order of `set_extent`'s list. */
  const BoundKeys: seq<string> := ["lon_min", "lon_max", "lat_min", "lat_max"]

  const BaseFeatures: seq<Feature> := [Coastline, Borders]

  /** The `shortName` in `filter_by_keys`, or no filter at all. */
  function ShortName(parameter: string): Option<string>
  {
    if parameter == "t2m" then Some("2t")
    else if parameter == "apcp" then Some("tp")
    else None
  }

  /**
   * The data layer drawn after the base features. It is decided by the same
   * tests as the filter the dataset was opened with, so the temperature
   * layer reads a dataset filtered to `2t` and the precipitation layer one
   * filtered to `tp`.
   */
  function LayerFor(parameter: string): (layer: Layer)
    ensures layer == NoLayer <==> ShortName(parameter).None?
    ensures layer == Temperature <==> ShortName(parameter) == Some("2t")
    ensures layer == Precipitation <==> ShortName(parameter) == Some("tp")
  {
    if parameter == "t2m" then Temperature
    else if parameter == "apcp" then Precipitation
    else NoLayer
  }

  /** Python's `bool(region_bounds)`: present and non-empty. */
  predicate BoundsTruthy(bounds: Option<Bounds>)
  {
    bounds.Some? && |bounds.value| > 0
  }

  /**
   * The extent set on the axes, if any, or the bound key whose lookup raises
   * `KeyError`. Falsy bounds set no extent; truthy bounds either lack a key,
   * and the first one absent is reported, or give the four coordinates in
   * the order of `BoundKeys`.
   */
  function Extent(bounds: Option<Bounds>): (r: Result<Option<seq<real>>, string>)
    ensures r.Failure? <==> BoundsTruthy(bounds) && !AllPresent(BoundKeys, bounds.value)
    ensures r.Failure? ==> exists i :: FirstAbsentAt(BoundKeys, bounds.value, i) && BoundKeys[i] == r.error
    ensures r.Success? ==> (r.value.Some? <==> BoundsTruthy(bounds))
    ensures r.Success? && r.value.Some? ==>
              |r.value.value| == |BoundKeys| &&
              forall i :: 0 <= i < |BoundKeys| ==> r.value.value[i] == bounds.value[BoundKeys[i]]
  {
    if !BoundsTruthy(bounds) then Success(None)
    else
      var b := bounds.value;
      match FirstMissing(BoundKeys, b)
      case Some(k) => Failure(k)
      case None => Success(Some([b["lon_min"], b["lon_max"], b["lat_min"], b["lat_max"]]))
  }

  /**
   * `generate_map`: the image it leaves at `outputPath` and the path it
   * returns. Every failure inside the `try` ends in a placeholder image at
   * the same path, so the call never fails and always returns `outputPath`.
   */
  function GenerateMap(outputPath: string, parameter: string, regionBounds: Option<Bounds>,
                       backend: Backend): (r: Rendered)
    ensures r.path == outputPath
    ensures r.image.Chart? <==>
              backend.opens && backend.makesAxes && backend.draws &&
              (BoundsTruthy(regionBounds) ==> AllPresent(BoundKeys, regionBounds.value))
    ensures !backend.opens ==> r.image == Placeholder(OpenFailed)
    ensures backend.opens && !backend.makesAxes ==> r.image == Placeholder(DrawFailed)
    ensures r.image.Chart? ==> r.image.features == [Coastline, Borders]
  {
    var image :=
      if !backend.opens then Placeholder(OpenFailed)
      else if !backend.makesAxes then Placeholder(DrawFailed)
      else match Extent(regionBounds)
        case Failure(k) => Placeholder(MissingBound(k))
        case Success(extent) =>
          if !backend.draws then Placeholder(DrawFailed)
          else Chart(Plan(ShortName(parameter), extent, LayerFor(parameter)), BaseFeatures);
    Rendered(outputPath, image)
  }
}

/** What `generate_map` promises about the charts it draws. */
module RendererProperties {
  import opened Wrappers
  import opened Lookup
  import opened Renderer

  /**
   * A chart is opened with filter `shortName = "2t"` exactly for `t2m` and
   * `shortName = "tp"` exactly for `apcp`; every other parameter is opened
   * unfiltered and gets no data layer, only coastline and borders. The
   * temperature layer is drawn exactly for `t2m`, the precipitation layer
   * exactly for `apcp`.
   */
  lemma ChartFollowsParameter(outputPath: string, parameter: string, regionBounds: Option<Bounds>,
                              backend: Backend)
    requires GenerateMap(outputPath, parameter, regionBounds, backend).image.Chart?
    ensures var plan := GenerateMap(outputPath, parameter, regionBounds, backend).image.plan;
      && (plan.filter == Some("2t") <==> parameter == "t2m")
      && (plan.filter == Some("tp") <==> parameter == "apcp")
      && (plan.filter.None? <==> parameter != "t2m" && parameter != "apcp")
      && (plan.layer == Temperature <==> parameter == "t2m")
      && (plan.layer == Precipitation <==> parameter == "apcp")
      && (plan.layer == NoLayer <==> plan.filter.None?)
  {
  }

  /**
   * A chart has a map extent exactly when the bounds are truthy, and the
   * extent lists `lon_min, lon_max, lat_min, lat_max` in that order.
   */
  lemma ChartExtent(outputPath: string, parameter: string, regionBounds: Option<Bounds>,
                    backend: Backend)
    requires GenerateMap(outputPath, parameter, regionBounds, backend).image.Chart?
    ensures var plan := GenerateMap(outputPath, parameter, regionBounds, backend).image.plan;
      && (plan.extent.Some? <==> BoundsTruthy(regionBounds))
      && (plan.extent.Some? ==>
            var b := regionBounds.value;
            plan.extent.value == [b["lon_min"], b["lon_max"], b["lat_min"], b["lat_max"]])
  {
  }

  /**
   * Truthy bounds that lack one of the four keys end in a placeholder naming
   * the first missing key, once the dataset has opened.
   */
  lemma MissingBoundGivesPlaceholder(outputPath: string, parameter: string, bounds: Bounds,
                                     backend: Backend, i: nat)
    requires backend.opens && backend.makesAxes && |bounds| > 0
    requires i < |BoundKeys| && BoundKeys[i] !in bounds
    requires forall j :: 0 <= j < i ==> BoundKeys[j] in bounds
    ensures GenerateMap(outputPath, parameter, Some(bounds), backend).image
            == Placeholder(MissingBound(BoundKeys[i]))
  {
    FirstMissingAt(BoundKeys, bounds, i);
  }

  /** The synoptic composite is drawn without filter and without data layer. */
  lemma SynopticHasNoLayer(outputPath: string, regionBounds: Option<Bounds>, backend: Backend)
    requires GenerateMap(outputPath, "synoptic", regionBounds, backend).image.Chart?
    ensures GenerateMap(outputPath, "synoptic", regionBounds, backend).image.plan.filter == None
    ensures GenerateMap(outputPath, "synoptic", regionBounds, backend).image.plan.layer == NoLayer
  {
  }
}
