/** What the callback promises, stated over the traces `Handle` produces. */
module CallbackProperties {
  import opened Wrappers
  import opened Payload
  import opened Jobs
  import opened Callback

  /** A `grib.downloaded` delivery whose object has all four required fields. */
  predicate CompleteDownload(d: Delivery)
  {
    d.routingKey == DownloadedKey && d.body.Object? && MissingField(d.body.fields).None?
  }

  function EventOfDelivery(d: Delivery): Event
    requires CompleteDownload(d)
  {
    EventOf(d.body.fields)
  }

  /** The messages the event announces when every job goes through, in job order. */
  function EventMessages(d: Delivery, regions: seq<Region>): seq<MapGenerated>
    requires CompleteDownload(d)
  {
    var event := EventOfDelivery(d);
    Messages(event, ForecastHour(event.filePath), Matrix(Parameters, regions))
  }

  /** The trace a bare acknowledgement attempt leaves. */
  function AckTrace(tag: nat, ack: Status): seq<Effect>
  {
    match ack
    case Done => [Ack(tag)]
    case Raises(e) => [Terminal(e)]
  }

  /** The run of the jobs of a complete `grib.downloaded` delivery. */
  function JobsRun(d: Delivery, regions: seq<Region>, env: Env): Run
    requires CompleteDownload(d)
  {
    var event := EventOfDelivery(d);
    RunJobs(event, ForecastHour(event.filePath), Matrix(Parameters, regions), env)
  }

  /** A complete `grib.downloaded` delivery runs its jobs, then acknowledges unless one raised. */
  lemma ProcessCompleteDownload(d: Delivery, regions: seq<Region>, env: Env)
    requires CompleteDownload(d)
    ensures var jobs := JobsRun(d, regions, env);
      Process(d, regions, env)
      == if jobs.error.Some? then jobs else Acknowledge(jobs.effects, d.deliveryTag, env)
  {
    assert Process(d, regions, env) == RunEvent(d.deliveryTag, EventOfDelivery(d), regions, env);
  }

  /** The trace is the `try` body's effects, then the terminal effect of whatever escaped it. */
  lemma HandleShape(d: Delivery, regions: seq<Region>, env: Env)
    ensures var r := Process(d, regions, env);
      Handle(d, regions, env) == if r.error.None? then r.effects else r.effects + [Terminal(r.error.value)]
  {
  }

  /** The terminal effect adds no publication. */
  lemma PublishedOfHandle(d: Delivery, regions: seq<Region>, env: Env)
    ensures Published(Handle(d, regions, env)) == Published(Process(d, regions, env).effects)
  {
    var r := Process(d, regions, env);
    if r.error.Some? {
      PublishedAppend(r.effects, [Terminal(r.error.value)]);
    }
  }

  lemma PublishedOfAcknowledge(effects: seq<Effect>, tag: nat, env: Env)
    requires Nonterminal(effects)
    ensures Published(Acknowledge(effects, tag, env).effects) == Published(effects)
  {
    if env.ack.Done? {
      PublishedAppend(effects, [Ack(tag)]);
    }
  }

  /**
   * A complete `grib.downloaded` message whose publishes, keep-alives and
   * acknowledgement all go through publishes exactly one message per
   * (parameter, region) pair, in parameter-major order, then acks: 3 × |regions|
   * messages and 4 effects per job.
   */
  lemma DownloadedPublishesEveryJob(d: Delivery, regions: seq<Region>, env: Env)
    requires CompleteDownload(d)
    requires AllSucceed(Matrix(Parameters, regions), env) && env.ack.Done?
    ensures Published(Handle(d, regions, env)) == EventMessages(d, regions)
    ensures |EventMessages(d, regions)| == 3 * |regions|
    ensures |Handle(d, regions, env)| == 4 * |EventMessages(d, regions)| + 1
    ensures Handle(d, regions, env)[|Handle(d, regions, env)| - 1] == Ack(d.deliveryTag)
  {
    var jobs := JobsRun(d, regions, env);
    AckedDownload(d, regions, env);
    AckedRun(jobs.effects, Handle(d, regions, env), d.deliveryTag, EventMessages(d, regions));
    ShownParametersMatrix(regions);
  }

  /** With every call going through, the trace is the jobs' effects and the acknowledgement. */
  lemma AckedDownload(d: Delivery, regions: seq<Region>, env: Env)
    requires CompleteDownload(d)
    requires AllSucceed(Matrix(Parameters, regions), env) && env.ack.Done?
    ensures var jobs := JobsRun(d, regions, env);
      && Handle(d, regions, env) == jobs.effects + [Ack(d.deliveryTag)]
      && Published(jobs.effects) == EventMessages(d, regions)
      && |jobs.effects| == 4 * |EventMessages(d, regions)|
  {
    ProcessCompleteDownload(d, regions, env);
    HandleShape(d, regions, env);
  }

  lemma AckedRun(effects: seq<Effect>, trace: seq<Effect>, tag: nat, msgs: seq<MapGenerated>)
    requires trace == effects + [Ack(tag)]
    requires Published(effects) == msgs && |effects| == 4 * |msgs|
    ensures Published(trace) == msgs && |trace| == 4 * |msgs| + 1 && trace[|trace| - 1] == Ack(tag)
  {
    PublishedAppend(effects, [Ack(tag)]);
  }

  /**
   * With every call going through, job `j` of parameter `i` owns effects
   * `4 × (i × |regions| + j)` to `+ 3` of the trace: it renders that pair's
   * map, uploads it under its object key, publishes its message, whose
   * `url` is that key, and keeps the connection alive.
   */
  lemma DownloadedTraceLayout(d: Delivery, regions: seq<Region>, env: Env, i: nat, j: nat)
    requires CompleteDownload(d)
    requires AllSucceed(Matrix(Parameters, regions), env) && env.ack.Done?
    requires i < |Parameters| && j < |regions|
    ensures var event := EventOfDelivery(d);
      BlockAt(Handle(d, regions, env), 4 * (i * |regions| + j),
              JobEffects(event, ForecastHour(event.filePath), Job(Parameters[i], regions[j]), env))
  {
    var event := EventOfDelivery(d);
    AckedSteps(d, regions, env);
    AckedLayout(event, ForecastHour(event.filePath), regions, env, d.deliveryTag, i, j);
  }

  /** The same layout, over the jobs' effects followed by the acknowledgement. */
  lemma AckedLayout(event: Event, hour: string, regions: seq<Region>, env: Env, tag: nat, i: nat, j: nat)
    requires AllSucceed(Matrix(Parameters, regions), env)
    requires i < |Parameters| && j < |regions|
    ensures BlockAt(Steps(event, hour, Matrix(Parameters, regions), env) + [Ack(tag)], 4 * (i * |regions| + j),
                    JobEffects(event, hour, Job(Parameters[i], regions[j]), env))
  {
    var jobs := Matrix(Parameters, regions);
    var p := RowStart(i, |regions|) + j;
    MatrixAt(Parameters, regions, i, j);
    RowStartIsProduct(i, |regions|);
    StepsLayout(event, hour, jobs, env, p);
    BlockBefore(Steps(event, hour, jobs, env), [Ack(tag)], 4 * p, JobEffects(event, hour, jobs[p], env));
  }

  /** With every call going through, the trace is every job's four effects, then the acknowledgement. */
  lemma AckedSteps(d: Delivery, regions: seq<Region>, env: Env)
    requires CompleteDownload(d)
    requires AllSucceed(Matrix(Parameters, regions), env) && env.ack.Done?
    ensures var event := EventOfDelivery(d);
      Handle(d, regions, env)
      == Steps(event, ForecastHour(event.filePath), Matrix(Parameters, regions), env) + [Ack(d.deliveryTag)]
  {
    var event := EventOfDelivery(d);
    var jobs := Matrix(Parameters, regions);
    AckedDownload(d, regions, env);
    assert FirstFailure(jobs, env) == |jobs|;
    RunJobsThrough(event, ForecastHour(event.filePath), jobs, env);
  }

  /**
   * When job `k` of a complete `grib.downloaded` message is the first whose
   * publish or keep-alive raises, the trace is the full effects of the jobs
   * before it, that job's effects up to the raising call, and the verdict
   * on its exception: re-raised when it is an AMQP error, dropped
   * otherwise, and never acknowledged. What was published is the earlier
   * jobs' messages, plus job `k`'s own when its publish went through.
   */
  lemma DownloadFailsAtJob(d: Delivery, regions: seq<Region>, env: Env)
    requires CompleteDownload(d)
    requires FirstFailure(Matrix(Parameters, regions), env) < |Matrix(Parameters, regions)|
    ensures var event := EventOfDelivery(d);
      var hour := ForecastHour(event.filePath);
      var jobs := Matrix(Parameters, regions);
      var k := FirstFailure(jobs, env);
      var e := JobError(jobs[k], env);
      var trace := Handle(d, regions, env);
      && trace == Steps(event, hour, jobs[..k], env) + JobStep(event, hour, jobs[k], env).effects + [Terminal(e)]
      && trace[|trace| - 1] == (if IsAmqp(e) then Raise(e) else Drop(e))
      && (forall t :: 0 <= t < |trace| ==> !trace[t].Ack?)
      && Published(trace)
         == Messages(event, hour, jobs[..k])
            + (if env.publish(jobs[k]).Done? then [Message(event, hour, jobs[k])] else [])
  {
    var event := EventOfDelivery(d);
    var hour := ForecastHour(event.filePath);
    var jobs := Matrix(Parameters, regions);
    var k := FirstFailure(jobs, env);
    var e := JobError(jobs[k], env);
    FailedTrace(d, regions, env);
    FailedPublished(d, regions, env);
    EndsInVerdict(RunJobs(event, hour, jobs, env).effects, Handle(d, regions, env), e);
  }

  /** A job's exception escapes the loop, and `Handle` closes the loop's effects with its verdict. */
  lemma FailedTrace(d: Delivery, regions: seq<Region>, env: Env)
    requires CompleteDownload(d)
    requires FirstFailure(Matrix(Parameters, regions), env) < |Matrix(Parameters, regions)|
    ensures var event := EventOfDelivery(d);
      var hour := ForecastHour(event.filePath);
      var jobs := Matrix(Parameters, regions);
      var k := FirstFailure(jobs, env);
      var run := RunJobs(event, hour, jobs, env);
      && run.effects == Steps(event, hour, jobs[..k], env) + JobStep(event, hour, jobs[k], env).effects
      && Handle(d, regions, env) == run.effects + [Terminal(JobError(jobs[k], env))]
  {
    var event := EventOfDelivery(d);
    var hour := ForecastHour(event.filePath);
    var jobs := Matrix(Parameters, regions);
    ProcessCompleteDownload(d, regions, env);
    HandleShape(d, regions, env);
    RunJobsStops(event, hour, jobs, env);
  }

  /** What a failed run published is all the trace publishes. */
  lemma FailedPublished(d: Delivery, regions: seq<Region>, env: Env)
    requires CompleteDownload(d)
    requires FirstFailure(Matrix(Parameters, regions), env) < |Matrix(Parameters, regions)|
    ensures var event := EventOfDelivery(d);
      var hour := ForecastHour(event.filePath);
      var jobs := Matrix(Parameters, regions);
      var k := FirstFailure(jobs, env);
      Published(Handle(d, regions, env))
      == Messages(event, hour, jobs[..k])
         + (if env.publish(jobs[k]).Done? then [Message(event, hour, jobs[k])] else [])
  {
    var event := EventOfDelivery(d);
    var jobs := Matrix(Parameters, regions);
    ProcessCompleteDownload(d, regions, env);
    PublishedOfHandle(d, regions, env);
    RunJobsStops(event, ForecastHour(event.filePath), jobs, env);
    RunJobsPublished(event, ForecastHour(event.filePath), jobs, env);
  }

  /** Nonterminal effects closed by a verdict hold no acknowledgement, and end in that verdict. */
  lemma EndsInVerdict(effects: seq<Effect>, trace: seq<Effect>, e: Exception)
    requires Nonterminal(effects) && trace == effects + [Terminal(e)]
    ensures trace[|trace| - 1] == (if IsAmqp(e) then Raise(e) else Drop(e))
    ensures forall t :: 0 <= t < |trace| ==> !trace[t].Ack?
  {
    forall t | 0 <= t < |trace| ensures !trace[t].Ack? {
      if t < |effects| { assert trace[t] == effects[t]; }
    }
  }

  /**
   * Whatever the broker calls do, a complete `grib.downloaded` message
   * publishes a prefix of its messages: the jobs run in order and stop at
   * the first exception.
   */
  lemma PublishedIsPrefix(d: Delivery, regions: seq<Region>, env: Env)
    requires CompleteDownload(d)
    ensures Published(Handle(d, regions, env)) <= EventMessages(d, regions)
  {
    var jobs := JobsRun(d, regions, env);
    ProcessCompleteDownload(d, regions, env);
    PublishedOfHandle(d, regions, env);
    if jobs.error.None? {
      PublishedOfAcknowledge(jobs.effects, d.deliveryTag, env);
    }
  }

  /**
   * Every message one delivery publishes copies `model`, `run_date` and
   * `run_hour` from the input, and all of them share one forecast hour.
   * With distinct region names no two of them announce the same object key.
   */
  lemma PublishedMessagesOfOneEvent(d: Delivery, regions: seq<Region>, env: Env)
    requires CompleteDownload(d)
    ensures var msgs := Published(Handle(d, regions, env));
      forall k :: 0 <= k < |msgs| ==>
        && msgs[k].model == d.body.fields["model"]
        && msgs[k].runDate == d.body.fields["run_date"]
        && msgs[k].runHour == d.body.fields["run_hour"]
        && msgs[k].forecastHour == ForecastHour(d.body.fields["file_path"])
    ensures DistinctNames(regions) ==>
      var msgs := Published(Handle(d, regions, env));
      forall a, b :: 0 <= a < b < |msgs| ==> msgs[a].url != msgs[b].url
  {
    var event := EventOfDelivery(d);
    PublishedIsPrefix(d, regions, env);
    PrefixOfMessages(Published(Handle(d, regions, env)), event, ForecastHour(event.filePath), regions);
  }

  /** What every message of the event shares, and what tells its messages apart, holds for any prefix of them. */
  lemma PrefixOfMessages(msgs: seq<MapGenerated>, event: Event, hour: string, regions: seq<Region>)
    requires msgs <= Messages(event, hour, Matrix(Parameters, regions))
    ensures forall k :: 0 <= k < |msgs| ==>
      && msgs[k].model == event.model && msgs[k].runDate == event.runDate
      && msgs[k].runHour == event.runHour && msgs[k].forecastHour == hour
    ensures DistinctNames(regions) ==> forall a, b :: 0 <= a < b < |msgs| ==> msgs[a].url != msgs[b].url
  {
    var jobs := Matrix(Parameters, regions);
    var all := Messages(event, hour, jobs);
    MessagesCopyEvent(event, hour, jobs);
    assert forall k :: 0 <= k < |msgs| ==> msgs[k] == all[k];
    if DistinctNames(regions) {
      KeysDistinct(event, hour, regions);
      forall a, b | 0 <= a < b < |msgs|
        ensures msgs[a].url != msgs[b].url
      {
        assert msgs[a] == all[a] && msgs[b] == all[b];
      }
    }
  }

  /** A trace with every upload result blanked out. */
  function EraseUpload(e: Effect): Effect
  {
    if e.Upload? then e.(stored := false) else e
  }

  function EraseUploads(trace: seq<Effect>): (erased: seq<Effect>)
  {
    seq(|trace|, i requires 0 <= i < |trace| => EraseUpload(trace[i]))
  }

  lemma EraseUploadsAppend(a: seq<Effect>, b: seq<Effect>)
    ensures EraseUploads(a + b) == EraseUploads(a) + EraseUploads(b)
  {
  }

  /** Blanking upload results leaves the publications alone. */
  lemma {:induction false} PublishedIgnoresUploads(trace: seq<Effect>)
    ensures Published(EraseUploads(trace)) == Published(trace)
    decreases |trace|
  {
    if |trace| > 0 {
      assert EraseUploads(trace)[1..] == EraseUploads(trace[1..]);
      PublishedIgnoresUploads(trace[1..]);
    }
  }

  lemma {:induction false} RunJobsIgnoresUploads(event: Event, hour: string, jobs: seq<Job>,
                                                 env: Env, upload: Job -> bool)
    ensures var r1 := RunJobs(event, hour, jobs, env);
      var r2 := RunJobs(event, hour, jobs, env.(upload := upload));
      r1.error == r2.error && EraseUploads(r1.effects) == EraseUploads(r2.effects)
    decreases |jobs|
  {
    var env2 := env.(upload := upload);
    if |jobs| > 0 {
      var h1 := JobStep(event, hour, jobs[0], env);
      var h2 := JobStep(event, hour, jobs[0], env2);
      assert EraseUploads(h1.effects) == EraseUploads(h2.effects);
      if h1.error.None? {
        var t1 := RunJobs(event, hour, jobs[1..], env);
        var t2 := RunJobs(event, hour, jobs[1..], env2);
        RunJobsIgnoresUploads(event, hour, jobs[1..], env, upload);
        EraseUploadsAppend(h1.effects, t1.effects);
        EraseUploadsAppend(h2.effects, t2.effects);
      }
    }
  }

  /**
   * `upload_file`'s result is discarded: changing every upload outcome
   * changes nothing in the trace but the recorded results, so the same
   * messages are published and the same terminal effect ends it.
   */
  lemma UploadResultIgnored(d: Delivery, regions: seq<Region>, env: Env, upload: Job -> bool)
    ensures var t1 := Handle(d, regions, env);
      var t2 := Handle(d, regions, env.(upload := upload));
      && EraseUploads(t1) == EraseUploads(t2)
      && Published(t1) == Published(t2)
      && t1[|t1| - 1] == t2[|t2| - 1]
  {
    ProcessIgnoresUploads(d, regions, env, upload);
    CloseIgnoresUploads(Process(d, regions, env), Process(d, regions, env.(upload := upload)), d.deliveryTag);
  }

  /** Closing two runs that differ only in upload results gives traces that differ only there. */
  lemma CloseIgnoresUploads(r1: Run, r2: Run, tag: nat)
    requires WellEnded(r1, tag) && WellEnded(r2, tag)
    requires r1.error == r2.error && EraseUploads(r1.effects) == EraseUploads(r2.effects)
    ensures var t1 := Close(r1, tag);
      var t2 := Close(r2, tag);
      && EraseUploads(t1) == EraseUploads(t2)
      && Published(t1) == Published(t2)
      && t1[|t1| - 1] == t2[|t2| - 1]
  {
    var t1 := Close(r1, tag);
    var t2 := Close(r2, tag);
    if r1.error.Some? {
      EraseUploadsAppend(r1.effects, [Terminal(r1.error.value)]);
      EraseUploadsAppend(r2.effects, [Terminal(r2.error.value)]);
    }
    assert EraseUploads(t1)[|t1| - 1] == EraseUploads(t2)[|t2| - 1];
    PublishedIgnoresUploads(t1);
    PublishedIgnoresUploads(t2);
  }

  lemma ProcessIgnoresUploads(d: Delivery, regions: seq<Region>, env: Env, upload: Job -> bool)
    ensures var p1 := Process(d, regions, env);
      var p2 := Process(d, regions, env.(upload := upload));
      p1.error == p2.error && EraseUploads(p1.effects) == EraseUploads(p2.effects)
  {
    var env2 := env.(upload := upload);
    if CompleteDownload(d) {
      var event := EventOfDelivery(d);
      var hour := ForecastHour(event.filePath);
      var jobs := Matrix(Parameters, regions);
      RunJobsIgnoresUploads(event, hour, jobs, env, upload);
      ProcessCompleteDownload(d, regions, env);
      ProcessCompleteDownload(d, regions, env2);
      var j1 := RunJobs(event, hour, jobs, env);
      var j2 := RunJobs(event, hour, jobs, env2);
      if j1.error.None? {
        AcknowledgeIgnoresUploads(j1.effects, j2.effects, d.deliveryTag, env, upload);
      }
    } else {
      assert Process(d, regions, env) == Process(d, regions, env2);
    }
  }

  lemma AcknowledgeIgnoresUploads(e1: seq<Effect>, e2: seq<Effect>, tag: nat, env: Env, upload: Job -> bool)
    requires Nonterminal(e1) && Nonterminal(e2) && EraseUploads(e1) == EraseUploads(e2)
    ensures var a1 := Acknowledge(e1, tag, env);
      var a2 := Acknowledge(e2, tag, env.(upload := upload));
      a1.error == a2.error && EraseUploads(a1.effects) == EraseUploads(a2.effects)
  {
    EraseUploadsAppend(e1, [Ack(tag)]);
    EraseUploadsAppend(e2, [Ack(tag)]);
  }

  /**
   * A `map.deleted` message never publishes. It deletes at most once, only
   * the message's truthy `url`, and that delete is the first effect.
   */
  lemma DeletedNeverPublishes(d: Delivery, regions: seq<Region>, env: Env)
    requires d.routingKey == DeletedKey
    ensures var trace := Handle(d, regions, env);
      && Published(trace) == []
      && |trace| <= 2
      && (forall i :: 0 <= i < |trace| && trace[i].Delete? ==>
            && i == 0 && d.body.Object?
            && trace[i].url == Get(d.body.fields, "url") && Truthy(trace[i].url))
  {
    var trace := Handle(d, regions, env);
    assert |trace| <= 2;
    if |trace| == 2 {
      assert trace[1..][1..] == [];
    } else if |trace| == 1 {
      assert trace[1..] == [];
    }
  }

  /** Without a truthy `url`, a `map.deleted` message is only acknowledged. */
  lemma DeletedWithoutUrlOnlyAcks(d: Delivery, regions: seq<Region>, env: Env)
    requires d.routingKey == DeletedKey && d.body.Object?
    requires !Truthy(Get(d.body.fields, "url"))
    ensures Handle(d, regions, env) == AckTrace(d.deliveryTag, env.ack)
  {
  }

  /**
   * The `Storage` class has no `delete_file`: with that storage a
   * `map.deleted` message carrying a truthy `url` raises `AttributeError`
   * and is dropped unacknowledged. A storage whose delete succeeds leads
   * to one delete, then the acknowledgement attempt.
   */
  lemma DeleteOutcome(d: Delivery, regions: seq<Region>, env: Env)
    requires d.routingKey == DeletedKey && d.body.Object?
    requires Truthy(Get(d.body.fields, "url"))
    ensures var url := Get(d.body.fields, "url");
      env.delete(url) == Raises(AttributeError("delete_file")) ==>
        Handle(d, regions, env) == [Drop(AttributeError("delete_file"))]
    ensures var url := Get(d.body.fields, "url");
      env.delete(url).Done? ==>
        Handle(d, regions, env) == [Delete(url)] + AckTrace(d.deliveryTag, env.ack)
  {
  }

  /** A `grib.downloaded` object lacking a field is dropped unacknowledged with the `KeyError`. */
  lemma MissingFieldDropped(d: Delivery, regions: seq<Region>, env: Env)
    requires d.routingKey == DownloadedKey && d.body.Object?
    requires MissingField(d.body.fields).Some?
    ensures Handle(d, regions, env) == [Drop(KeyError(MissingField(d.body.fields).value))]
  {
  }

  /** A body that is not a JSON object is dropped unacknowledged by both branches. */
  lemma NonObjectDropped(d: Delivery, regions: seq<Region>, env: Env)
    requires d.body.NotAnObject?
    ensures d.routingKey == DownloadedKey ==> Handle(d, regions, env) == [Drop(TypeError)]
    ensures d.routingKey == DeletedKey ==> Handle(d, regions, env) == [Drop(AttributeError("get"))]
  {
  }

  /** A body `json.loads` rejects is dropped unacknowledged, whatever the routing key. */
  lemma UnparsableDropped(d: Delivery, regions: seq<Region>, env: Env)
    requires d.body.Unparsable?
    ensures Handle(d, regions, env) == [Drop(JsonDecodeError)]
  {
  }

  /** Any other routing key is only acknowledged. */
  lemma OtherRoutingKeyOnlyAcks(d: Delivery, regions: seq<Region>, env: Env)
    requires !d.body.Unparsable? && d.routingKey != DownloadedKey && d.routingKey != DeletedKey
    ensures Handle(d, regions, env) == AckTrace(d.deliveryTag, env.ack)
  {
  }
}
