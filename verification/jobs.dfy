/**
 * The pure part of the `grib.downloaded` branch of the message callback:
 * the forecast hour taken from the file path, the parameter × region job
 * matrix, the local output path, the object key and the `map.generated`
 * message of each job.
 */
module Jobs {
  import opened Wrappers
  import opened Strings
  import opened Payload
  import Renderer

  /** The parameters rendered for every downloaded file, in order. */
  const Parameters: seq<string> := ["t2m", "apcp", "synoptic"]

  /** The separator the forecast hour follows. */
  const HourMarker: string := ".f"

  /** One entry of the configured regions: its name and its bounds. */
  datatype Region = Region(name: string, bounds: Renderer.Bounds)

  /** One render job: a parameter crossed with a region. */
  datatype Job = Job(parameter: string, region: Region)

  /** The four fields of a `grib.downloaded` message, as decoded. */
  datatype Event = Event(filePath: Value, model: Value, runDate: Value, runHour: Value)

  /** The body of a `map.generated` message. */
  datatype MapGenerated = MapGenerated(
    model: Value, runDate: Value, runHour: Value,
    parameter: string, forecastHour: string, region: string, url: string)

  /** Region names are pairwise distinct, as the keys of a dictionary are. */
  ghost predicate DistinctNames(regions: seq<Region>)
  {
    forall a, b :: 0 <= a < b < |regions| ==> regions[a].name != regions[b].name
  }

  predicate SlashFree(s: string)
  {
    forall i :: 0 <= i < |s| ==> s[i] != '/'
  }

  /**
   * `grib_path.split('.f')[-1]`, or `"000"` when the path is not a string
   * (the call raises and the bare `except` supplies the default). The
   * model plays no part.
   */
  function ForecastHour(filePath: Value): (hour: string)
    ensures filePath.Str? ==> !Occurs(hour, HourMarker)
    ensures filePath.Str? && Occurs(filePath.s, HourMarker) ==> EndsWith(filePath.s, HourMarker + hour)
    ensures filePath.Str? && !Occurs(filePath.s, HourMarker) ==> hour == filePath.s
    ensures !filePath.Str? ==> hour == "000"
  {
    match filePath
    case Str(s) => LastPieceSpec(s, HourMarker); LastPiece(s, HourMarker)
    case _ => "000"
  }

  /** `t` follows the last `.f` of `s`: `s` ends with `.f` + `t` and `t` holds no `.f`. */
  ghost predicate AfterLastMarker(s: string, t: string)
  {
    EndsWith(s, HourMarker + t) && !Occurs(t, HourMarker)
  }

  /**
   * The marker cannot overlap itself, so at most one suffix of a path
   * follows a `.f` without containing another one.
   */
  lemma MarkerSuffixUnique(s: string, t1: string, t2: string)
    requires AfterLastMarker(s, t1) && AfterLastMarker(s, t2)
    ensures t1 == t2
  {
    if |t1| < |t2| {
      MarkerInLongerSuffix(s, t1, t2);
    } else if |t2| < |t1| {
      MarkerInLongerSuffix(s, t2, t1);
    } else {
      assert t1 == s[|s| - |t1|..] == t2;
    }
  }

  lemma MarkerInLongerSuffix(s: string, short: string, long: string)
    requires EndsWith(s, HourMarker + short) && EndsWith(s, HourMarker + long)
    requires |short| < |long|
    ensures Occurs(long, HourMarker)
  {
    var n := |s|;
    assert s[n - |short| - 1] == 'f' && s[n - |short| - 2] == '.';
    assert long == s[n - |long|..];
    if |long| == |short| + 1 {
      assert false;
    } else {
      var k := |long| - |short| - 2;
      assert long[k..k + 2] == s[n - |short| - 2..n - |short|];
      assert OccursAt(long, HourMarker, k);
    }
  }

  /**
   * The forecast hour of a string path is the text after the last `.f`:
   * that `.f` starts at `|s| - |hour| - 2`, and no `.f` starts later.
   */
  lemma HourFollowsLastMarker(s: string)
    requires Occurs(s, HourMarker)
    ensures var hour := ForecastHour(Str(s));
      && AfterLastMarker(s, hour)
      && OccursAt(s, HourMarker, |s| - |hour| - 2)
      && forall j :: OccursAt(s, HourMarker, j) ==> j <= |s| - |hour| - 2
  {
    var hour := ForecastHour(Str(s));
    var p := |s| - |hour| - 2;
    assert s[p..] == HourMarker + hour;
    assert s[p..p + 2] == s[p..][..2];
    forall j | OccursAt(s, HourMarker, j)
      ensures j <= p
    {
      NoLaterMarker(s, hour, j);
    }
  }

  lemma MarkerChars(s: string, j: int)
    requires OccursAt(s, HourMarker, j)
    ensures s[j] == '.' && s[j + 1] == 'f'
  {
    assert s[j..j + 2] == HourMarker;
  }

  lemma SuffixChars(s: string, t: string)
    requires EndsWith(s, HourMarker + t)
    ensures s[|s| - |t| - 1] == 'f'
  {
    assert s[|s| - |t| - 2..] == HourMarker + t;
  }

  lemma MarkerInsideSuffix(s: string, t: string, j: int)
    requires EndsWith(s, HourMarker + t) && OccursAt(s, HourMarker, j)
    requires j >= |s| - |t|
    ensures OccursAt(t, HourMarker, j - (|s| - |t|))
  {
    var k := j - (|s| - |t|);
    assert t == s[|s| - |t|..];
    assert t[k..k + 2] == s[j..j + 2];
  }

  lemma NoLaterMarker(s: string, t: string, j: int)
    requires AfterLastMarker(s, t) && OccursAt(s, HourMarker, j)
    ensures j <= |s| - |t| - 2
  {
    var p := |s| - |t| - 2;
    assert s[p..] == HourMarker + t;
    if j == p + 1 {
      MarkerChars(s, j);
      SuffixChars(s, t);
      assert false;
    } else if j > p + 1 {
      MarkerInsideSuffix(s, t, j);
      assert false;
    }
  }

  /** A path of the form `prefix + ".f" + hour`, with no `.f` in `hour`, has forecast hour `hour`. */
  lemma HourOfMarkedPath(prefix: string, hour: string)
    requires !Occurs(hour, HourMarker)
    ensures ForecastHour(Str(prefix + HourMarker + hour)) == hour
  {
    var s := prefix + HourMarker + hour;
    assert s[|prefix|..|prefix| + 2] == HourMarker;
    assert OccursAt(s, HourMarker, |prefix|);
    assert s[|s| - |HourMarker + hour|..] == HourMarker + hour;
    MarkerSuffixUnique(s, ForecastHour(Str(s)), hour);
  }

  /** `gfs.t12z.pgrb2.0p25.f003` has forecast hour `003`. */
  lemma GfsExampleHour()
    ensures ForecastHour(Str("gfs.t12z.pgrb2.0p25" + ".f" + "003")) == "003"
  {
    assert !Occurs("003", HourMarker) by {
      forall k | OccursAt("003", HourMarker, k) ensures false {
        MarkerChars("003", k);
        assert false;
      }
    }
    HourOfMarkedPath("gfs.t12z.pgrb2.0p25", "003");
  }

  /** The jobs of one parameter: one per region, in region order. */
  function Row(parameter: string, regions: seq<Region>): (jobs: seq<Job>)
  {
    seq(|regions|, j requires 0 <= j < |regions| => Job(parameter, regions[j]))
  }

  /** The nested `for param … for region …` loops: one row of `|regions|` jobs per parameter. */
  function Matrix(parameters: seq<string>, regions: seq<Region>): (jobs: seq<Job>)
    ensures |jobs| == RowStart(|parameters|, |regions|)
    decreases |parameters|
  {
    if |parameters| == 0 then [] else Row(parameters[0], regions) + Matrix(parameters[1..], regions)
  }

  /** Where row `i` of a matrix `width` jobs wide starts, counted without multiplying. */
  function RowStart(i: nat, width: nat): nat
  {
    if i == 0 then 0 else width + RowStart(i - 1, width)
  }

  lemma {:induction false} RowStartIsProduct(i: nat, width: nat)
    ensures RowStart(i, width) == i * width
  {
    if i > 0 {
      RowStartIsProduct(i - 1, width);
    }
  }

  /** Job `j` of parameter `i` sits at position `RowStart(i, |regions|) + j`. */
  lemma {:induction false} MatrixAt(parameters: seq<string>, regions: seq<Region>, i: nat, j: nat)
    requires i < |parameters| && j < |regions|
    ensures RowStart(i, |regions|) + j < |Matrix(parameters, regions)|
    ensures Matrix(parameters, regions)[RowStart(i, |regions|) + j] == Job(parameters[i], regions[j])
    decreases |parameters|
  {
    if i == 0 {
      MatrixFirstRow(parameters, regions, j);
    } else {
      var k := RowStart(i - 1, |regions|) + j;
      assert RowStart(i, |regions|) + j == |regions| + k;
      MatrixAt(parameters[1..], regions, i - 1, j);
      MatrixLaterRows(parameters, regions, k);
      assert parameters[1..][i - 1] == parameters[i];
    }
  }

  lemma MatrixFirstRow(parameters: seq<string>, regions: seq<Region>, j: nat)
    requires 0 < |parameters| && j < |regions|
    ensures j < |Matrix(parameters, regions)|
    ensures Matrix(parameters, regions)[j] == Job(parameters[0], regions[j])
  {
    var row := Row(parameters[0], regions);
    assert (row + Matrix(parameters[1..], regions))[j] == row[j];
  }

  lemma MatrixLaterRows(parameters: seq<string>, regions: seq<Region>, k: nat)
    requires 0 < |parameters| && k < |Matrix(parameters[1..], regions)|
    ensures |regions| + k < |Matrix(parameters, regions)|
    ensures Matrix(parameters, regions)[|regions| + k] == Matrix(parameters[1..], regions)[k]
  {
    var row := Row(parameters[0], regions);
    var rest := Matrix(parameters[1..], regions);
    assert (row + rest)[|row| + k] == rest[k];
  }

  lemma {:induction false} MatrixLength(parameters: seq<string>, regions: seq<Region>)
    ensures |Matrix(parameters, regions)| == |parameters| * |regions|
    decreases |parameters|
  {
    if |parameters| > 0 {
      MatrixLength(parameters[1..], regions);
      assert |parameters| * |regions| == |regions| + (|parameters| - 1) * |regions|;
    }
  }

  /** The fixed parameters give three jobs per region. */
  lemma ShownParametersMatrix(regions: seq<Region>)
    ensures |Matrix(Parameters, regions)| == 3 * |regions|
  {
    MatrixLength(Parameters, regions);
    assert |Parameters| == 3;
  }

  /** Row `i`, column `j` of `jobs`, read as a matrix `|regions|` wide, holds parameter `i` crossed with region `j`. */
  predicate JobAt(jobs: seq<Job>, parameters: seq<string>, regions: seq<Region>, i: int, j: int)
  {
    && 0 <= i < |parameters| && 0 <= j < |regions|
    && RowStart(i, |regions|) + j < |jobs|
    && jobs[RowStart(i, |regions|) + j] == Job(parameters[i], regions[j])
  }

  /**
   * The job matrix is parameter-major, then region: parameter `i` crossed
   * with region `j` sits at position `i * |regions| + j`.
   */
  lemma {:induction false} MatrixOrder(parameters: seq<string>, regions: seq<Region>)
    ensures forall i, j :: 0 <= i < |parameters| && 0 <= j < |regions| ==>
              JobAt(Matrix(parameters, regions), parameters, regions, i, j)
    ensures forall i :: 0 <= i < |parameters| ==> RowStart(i, |regions|) == i * |regions|
  {
    forall i, j | 0 <= i < |parameters| && 0 <= j < |regions|
      ensures JobAt(Matrix(parameters, regions), parameters, regions, i, j)
    {
      MatrixAt(parameters, regions, i, j);
    }
    forall i | 0 <= i < |parameters|
      ensures RowStart(i, |regions|) == i * |regions|
    {
      RowStartIsProduct(i, |regions|);
    }
  }

  /** `os.path.join("/tmp", f"{param}_{forecast_hour}_{region_name}.png")`. */
  function OutputPath(parameter: string, hour: string, region: string): string
  {
    "/tmp/" + parameter + "_" + hour + "_" + region + ".png"
  }

  /** The local file lives in `/tmp` and is named by parameter, hour and region joined with `_`. */
  lemma OutputPathFields(parameter: string, hour: string, region: string)
    ensures OutputPath(parameter, hour, region) == "/tmp/" + Join([parameter, hour, region], "_") + ".png"
  {
    assert [parameter, hour] == [parameter] + [hour];
    assert [parameter, hour, region] == [parameter, hour] + [region];
    JoinSnoc([parameter], hour, "_");
    JoinSnoc([parameter, hour], region, "_");
  }

  /** The leading `{model}/{run_date}/{run_hour}/` of every key of one event. */
  function KeyPrefix(event: Event): string
  {
    Format(event.model) + "/" + Format(event.runDate) + "/" + Format(event.runHour) + "/"
  }

  /** The last component of a key, `{forecast_hour}_{region_name}.png`. */
  function KeyFile(hour: string, region: string): string
  {
    hour + "_" + region + ".png"
  }

  /** `f"{model}/{run_date}/{run_hour}/{param}/{forecast_hour}_{region_name}.png"`. */
  function ObjectKey(event: Event, hour: string, job: Job): string
  {
    KeyPrefix(event) + (job.parameter + "/" + KeyFile(hour, job.region.name))
  }

  /** The five components the key is built from, in order. */
  function KeyFields(event: Event, hour: string, job: Job): seq<string>
  {
    [Format(event.model), Format(event.runDate), Format(event.runHour), job.parameter,
     KeyFile(hour, job.region.name)]
  }

  /**
   * The key is its five components joined with `/`; when none of them holds
   * a `/`, splitting the key on `/` gives them back.
   */
  lemma ObjectKeyFields(event: Event, hour: string, job: Job)
    ensures ObjectKey(event, hour, job) == Join(KeyFields(event, hour, job), "/")
    ensures (forall i :: 0 <= i < 5 ==> Lacks(KeyFields(event, hour, job)[i], '/')) ==>
              Split(ObjectKey(event, hour, job), "/") == KeyFields(event, hour, job)
  {
    var f := KeyFields(event, hour, job);
    assert [f[0], f[1]] == [f[0]] + [f[1]];
    assert [f[0], f[1], f[2]] == [f[0], f[1]] + [f[2]];
    assert [f[0], f[1], f[2], f[3]] == [f[0], f[1], f[2]] + [f[3]];
    assert f == [f[0], f[1], f[2], f[3]] + [f[4]];
    JoinSnoc([f[0]], f[1], "/");
    JoinSnoc([f[0], f[1]], f[2], "/");
    JoinSnoc([f[0], f[1], f[2]], f[3], "/");
    JoinSnoc([f[0], f[1], f[2], f[3]], f[4], "/");
    var prefix := KeyPrefix(event);
    assert prefix + (f[3] + "/" + f[4]) == prefix + f[3] + "/" + f[4];
    if forall i :: 0 <= i < 5 ==> Lacks(f[i], '/') {
      SplitJoin(f, '/');
    }
  }

  /** The `message` dictionary published for one job. */
  function Message(event: Event, hour: string, job: Job): MapGenerated
  {
    MapGenerated(event.model, event.runDate, event.runHour,
                 job.parameter, hour, job.region.name, ObjectKey(event, hour, job))
  }

  /** The messages of a job list, in job order. */
  function Messages(event: Event, hour: string, jobs: seq<Job>): (msgs: seq<MapGenerated>)
    ensures |msgs| == |jobs|
    ensures forall k :: 0 <= k < |jobs| ==> msgs[k] == Message(event, hour, jobs[k])
    decreases |jobs|
  {
    if |jobs| == 0 then [] else [Message(event, hour, jobs[0])] + Messages(event, hour, jobs[1..])
  }

  /** No two jobs share both parameter and region name. */
  ghost predicate DistinctJobs(jobs: seq<Job>)
  {
    forall a, b :: 0 <= a < b < |jobs| ==>
      jobs[a].parameter != jobs[b].parameter || jobs[a].region.name != jobs[b].region.name
  }

  ghost predicate DistinctStrings(xs: seq<string>)
  {
    forall a, b :: 0 <= a < b < |xs| ==> xs[a] != xs[b]
  }

  /** Every job of the matrix pairs one of the parameters with one of the regions. */
  lemma {:induction false} MatrixMembers(parameters: seq<string>, regions: seq<Region>)
    ensures forall k :: 0 <= k < |Matrix(parameters, regions)| ==>
              Matrix(parameters, regions)[k].parameter in parameters
    decreases |parameters|
  {
    if |parameters| > 0 {
      var row := Row(parameters[0], regions);
      var rest := Matrix(parameters[1..], regions);
      assert Matrix(parameters, regions) == row + rest;
      MatrixMembers(parameters[1..], regions);
      forall k | 0 <= k < |Matrix(parameters, regions)|
        ensures Matrix(parameters, regions)[k].parameter in parameters
      {
        if k >= |row| {
          assert Matrix(parameters, regions)[k] == rest[k - |row|];
          assert rest[k - |row|].parameter in parameters[1..];
        }
      }
    }
  }

  /** With distinct parameters and distinct region names, every job of the matrix is a different pair. */
  lemma {:induction false} MatrixJobsDistinct(parameters: seq<string>, regions: seq<Region>)
    requires DistinctStrings(parameters) && DistinctNames(regions)
    ensures DistinctJobs(Matrix(parameters, regions))
    decreases |parameters|
  {
    if |parameters| > 0 {
      var row := Row(parameters[0], regions);
      var rest := Matrix(parameters[1..], regions);
      var jobs := Matrix(parameters, regions);
      assert jobs == row + rest;
      assert DistinctStrings(parameters[1..]) by {
        forall a, b | 0 <= a < b < |parameters[1..]|
          ensures parameters[1..][a] != parameters[1..][b]
        {
          assert parameters[1..][a] == parameters[a + 1] && parameters[1..][b] == parameters[b + 1];
        }
      }
      MatrixJobsDistinct(parameters[1..], regions);
      MatrixMembers(parameters[1..], regions);
      forall a, b | 0 <= a < b < |jobs|
        ensures jobs[a].parameter != jobs[b].parameter || jobs[a].region.name != jobs[b].region.name
      {
        if b < |row| {
          assert jobs[a] == row[a] && jobs[b] == row[b];
        } else if a < |row| {
          assert jobs[a].parameter == parameters[0];
          assert jobs[b] == rest[b - |row|];
          assert jobs[b].parameter in parameters[1..];
        } else {
          assert jobs[a] == rest[a - |row|] && jobs[b] == rest[b - |row|];
        }
      }
    }
  }

  /** Where a shorter head's slash falls inside a longer head. */
  lemma CharsOfJoined(x: string, xs: string, y: string, ys: string)
    requires |x| < |y|
    ensures (x + "/" + xs)[|x|] == '/'
    ensures (y + "/" + ys)[|x|] == y[|x|]
  {
  }

  /** A slash-free head is recovered from `head + "/" + tail`. */
  lemma SlashFreeHead(x: string, xs: string, y: string, ys: string)
    requires SlashFree(x) && SlashFree(y)
    requires x + "/" + xs == y + "/" + ys
    ensures x == y && xs == ys
  {
    var l := x + "/" + xs;
    if |x| < |y| {
      CharsOfJoined(x, xs, y, ys);
      assert false;
    } else if |y| < |x| {
      CharsOfJoined(y, ys, x, xs);
      assert false;
    }
    assert x == l[..|x|] == y;
    assert xs == l[|x| + 1..] == ys;
  }

  /**
   * Within one event the object key determines the job: with slash-free
   * parameter names, equal keys mean equal parameter and region name.
   */
  lemma KeyDeterminesJob(event: Event, hour: string, a: Job, b: Job)
    requires SlashFree(a.parameter) && SlashFree(b.parameter)
    requires ObjectKey(event, hour, a) == ObjectKey(event, hour, b)
    ensures a.parameter == b.parameter && a.region.name == b.region.name
  {
    var prefix := KeyPrefix(event);
    var ta := KeyFile(hour, a.region.name);
    var tb := KeyFile(hour, b.region.name);
    DropPrefix(prefix, a.parameter + "/" + ta);
    DropPrefix(prefix, b.parameter + "/" + tb);
    SlashFreeHead(a.parameter, ta, b.parameter, tb);
    RegionOfKeyFile(hour, a.region.name);
    RegionOfKeyFile(hour, b.region.name);
  }

  lemma DropPrefix(p: string, x: string)
    ensures (p + x)[|p|..] == x
  {
  }

  /** The region name sits between the hour's `_` and the `.png`. */
  lemma RegionOfKeyFile(hour: string, region: string)
    ensures var f := KeyFile(hour, region);
      |hour| + 1 <= |f| - 4 && f[|hour| + 1..|f| - 4] == region
  {
    var f := KeyFile(hour, region);
    assert f == (hour + "_") + region + ".png";
  }

  /** The fixed parameters are distinct and hold no slash. */
  lemma ParametersWellFormed()
    ensures DistinctStrings(Parameters)
    ensures forall i :: 0 <= i < |Parameters| ==> SlashFree(Parameters[i])
  {
  }

  /**
   * The object keys of one event are pairwise distinct when the region names
   * are: every job of the matrix uploads to and announces its own key.
   */
  lemma {:induction false} KeysDistinct(event: Event, hour: string, regions: seq<Region>)
    requires DistinctNames(regions)
    ensures var jobs := Matrix(Parameters, regions);
      forall a, b :: 0 <= a < b < |jobs| ==> ObjectKey(event, hour, jobs[a]) != ObjectKey(event, hour, jobs[b])
  {
    var jobs := Matrix(Parameters, regions);
    ParametersWellFormed();
    MatrixJobsDistinct(Parameters, regions);
    forall a, b | 0 <= a < b < |jobs|
      ensures ObjectKey(event, hour, jobs[a]) != ObjectKey(event, hour, jobs[b])
    {
      if ObjectKey(event, hour, jobs[a]) == ObjectKey(event, hour, jobs[b]) {
        KeyDeterminesJob(event, hour, jobs[a], jobs[b]);
      }
    }
  }

  /**
   * Every message of an event copies `model`, `run_date` and `run_hour`
   * from the input, carries its job's parameter and region, shares the one
   * forecast hour, and announces its job's object key as `url`.
   */
  lemma MessagesCopyEvent(event: Event, hour: string, jobs: seq<Job>)
    ensures var msgs := Messages(event, hour, jobs);
      forall k :: 0 <= k < |msgs| ==>
        && msgs[k].model == event.model && msgs[k].runDate == event.runDate
        && msgs[k].runHour == event.runHour
        && msgs[k].parameter == jobs[k].parameter && msgs[k].region == jobs[k].region.name
        && msgs[k].forecastHour == hour
        && msgs[k].url == ObjectKey(event, hour, jobs[k])
  {
  }
}
