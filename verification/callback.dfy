/**
 * The broker message callback as a pure function from one delivery (routing
 * key, delivery tag, decoded body), the configured regions and the outcomes
 * of the external calls to the trace of effects it performs.
 *
 * An effect is recorded once its call has returned normally; the trace then
 * ends in exactly one terminal effect: `Ack` when the `try` body completed,
 * `Raise` when an AMQP error escaped (it is re-raised to pika), `Drop` when
 * any other exception escaped (it is logged and the message stays unacked).
 */
module Callback {
  import opened Wrappers
  import opened Payload
  import opened Jobs
  import opened Lookup
  import Renderer

  const ExchangeName: string := "weather_events"
  const DownloadedKey: string := "grib.downloaded"
  const DeletedKey: string := "map.deleted"
  const GeneratedKey: string := "map.generated"

  /** The exceptions the callback can meet. */
  datatype Exception =
    | AmqpError(name: string)
    | JsonDecodeError
    | TypeError
    | KeyError(key: string)
    | AttributeError(attribute: string)
    | OtherError(name: string)

  /** Whether the exception is a `pika.exceptions.AMQPError`. */
  predicate IsAmqp(e: Exception) { e.AmqpError? }

  /** Outcome of an external call that can raise. */
  datatype Status = Done | Raises(error: Exception)

  /**
   * The outcomes of the calls the callback makes into code this model does
   * not contain, per job where the call is per job: the renderer's dataset
   * and drawing work, `Storage.upload_file`'s boolean result,
   * `ch.basic_publish`, `connection.process_data_events`,
   * `storage.delete_file` and `ch.basic_ack`.
   */
  datatype Env = Env(
    backend: Job -> Renderer.Backend,
    upload: Job -> bool,
    publish: Job -> Status,
    keepAlive: Job -> Status,
    delete: Value -> Status,
    ack: Status)

  datatype Effect =
    | Render(gribPath: Value, parameter: string, result: Renderer.Rendered)
    | Upload(localPath: string, key: string, stored: bool)
    | Publish(exchange: string, routingKey: string, message: MapGenerated)
    | KeepAlive
    | Delete(url: Value)
    | Ack(deliveryTag: nat)
    | Raise(error: Exception)
    | Drop(error: Exception)

  predicate IsTerminal(e: Effect) { e.Ack? || e.Raise? || e.Drop? }

  /** One inbound message as the callback sees it. */
  datatype Delivery = Delivery(routingKey: string, deliveryTag: nat, body: Body)

  /** The effects of a stretch of the `try` body, and the exception that ended it, if any. */
  datatype Run = Run(effects: seq<Effect>, error: Option<Exception>)

  ghost predicate Nonterminal(effects: seq<Effect>)
  {
    forall i :: 0 <= i < |effects| ==> !IsTerminal(effects[i])
  }

  /** The messages published by a stretch of effects, in order. */
  function Published(effects: seq<Effect>): (msgs: seq<MapGenerated>)
    ensures |msgs| <= |effects|
    decreases |effects|
  {
    if |effects| == 0 then []
    else
      var rest := Published(effects[1..]);
      if effects[0].Publish? then [effects[0].message] + rest else rest
  }

  lemma {:induction false} PublishedAppend(a: seq<Effect>, b: seq<Effect>)
    ensures Published(a + b) == Published(a) + Published(b)
    decreases |a|
  {
    if |a| > 0 {
      assert (a + b)[1..] == a[1..] + b;
      PublishedAppend(a[1..], b);
    } else {
      assert a + b == b;
    }
  }

  /**
   * One iteration of the inner loop: render, upload, publish, keep the
   * connection alive. Rendering and uploading never raise; the upload's
   * result is recorded and otherwise ignored.
   */
  function JobStep(event: Event, hour: string, job: Job, env: Env): (r: Run)
    ensures Nonterminal(r.effects)
    ensures 2 <= |r.effects| <= 4
    ensures r.effects[0].Render? && r.effects[0].parameter == job.parameter
    ensures r.effects[0].result.path == OutputPath(job.parameter, hour, job.region.name)
    ensures r.effects[1] == Upload(r.effects[0].result.path, ObjectKey(event, hour, job), env.upload(job))
    ensures |r.effects| >= 3 ==>
              && r.effects[2] == Publish(ExchangeName, GeneratedKey, Message(event, hour, job))
              && r.effects[2].message.url == r.effects[1].key
    ensures |r.effects| == 4 ==> r.effects[3] == KeepAlive
    ensures |r.effects| == 2 <==> env.publish(job).Raises?
    ensures r.error.None? <==> env.publish(job).Done? && env.keepAlive(job).Done?
    ensures r.error.None? <==> |r.effects| == 4
    ensures r.error.Some? ==>
              r.error.value == (if env.publish(job).Raises? then env.publish(job).error
                                else env.keepAlive(job).error)
  {
    var out := OutputPath(job.parameter, hour, job.region.name);
    var rendered := Renderer.GenerateMap(out, job.parameter, Some(job.region.bounds), env.backend(job));
    var key := ObjectKey(event, hour, job);
    var done := [Render(event.filePath, job.parameter, rendered), Upload(rendered.path, key, env.upload(job))];
    match env.publish(job)
    case Raises(e) => Run(done, Some(e))
    case Done =>
      var published := done + [Publish(ExchangeName, GeneratedKey, Message(event, hour, job))];
      match env.keepAlive(job)
      case Raises(e) => Run(published, Some(e))
      case Done => Run(published + [KeepAlive], None)
  }

  /** A job publishes its own message, unless `basic_publish` raises. */
  lemma JobStepPublishes(event: Event, hour: string, job: Job, env: Env)
    ensures Published(JobStep(event, hour, job, env).effects)
            == if env.publish(job).Done? then [Message(event, hour, job)] else []
  {
    var e := JobStep(event, hour, job, env).effects;
    assert e[1..][1..] == e[2..];
    assert Published(e) == Published(e[2..]);
    if |e| == 2 {
      assert e[2..] == [];
    } else if |e| == 3 {
      assert e[2..][1..] == [];
    } else {
      var tail := e[2..][1..];
      assert tail == [KeepAlive] && tail[1..] == [];
      assert Published(tail) == [];
    }
  }

  /** `basic_publish` and `process_data_events` both go through for `job`. */
  predicate Succeeds(job: Job, env: Env)
  {
    env.publish(job).Done? && env.keepAlive(job).Done?
  }

  /** Every job of `jobs` publishes and keeps the connection alive without raising. */
  ghost predicate AllSucceed(jobs: seq<Job>, env: Env)
  {
    forall k :: 0 <= k < |jobs| ==> Succeeds(jobs[k], env)
  }

  /** The exception a failing job raises: `basic_publish`'s, or else `process_data_events`'s. */
  function JobError(job: Job, env: Env): Exception
    requires !Succeeds(job, env)
  {
    if env.publish(job).Raises? then env.publish(job).error else env.keepAlive(job).error
  }

  lemma AllSucceedCons(jobs: seq<Job>, env: Env)
    requires |jobs| > 0
    ensures AllSucceed(jobs, env) <==>
              env.publish(jobs[0]).Done? && env.keepAlive(jobs[0]).Done? && AllSucceed(jobs[1..], env)
  {
    if env.publish(jobs[0]).Done? && env.keepAlive(jobs[0]).Done? && AllSucceed(jobs[1..], env) {
      forall k | 0 <= k < |jobs|
        ensures env.publish(jobs[k]).Done? && env.keepAlive(jobs[k]).Done?
      {
        if k > 0 { assert jobs[k] == jobs[1..][k - 1]; }
      }
    }
  }

  lemma NonterminalAppend(a: seq<Effect>, b: seq<Effect>)
    requires Nonterminal(a) && Nonterminal(b)
    ensures Nonterminal(a + b)
  {
  }

  /**
   * The nested loops over the job matrix: the jobs run in order until one
   * raises. What was published is always a prefix of the jobs' messages,
   * and all of them when nothing raised.
   */
  function RunJobs(event: Event, hour: string, jobs: seq<Job>, env: Env): (r: Run)
    ensures Nonterminal(r.effects)
    ensures r.error.None? <==> AllSucceed(jobs, env)
    ensures r.error.None? ==> Published(r.effects) == Messages(event, hour, jobs)
    ensures r.error.None? ==> |r.effects| == 4 * |jobs|
    ensures Published(r.effects) <= Messages(event, hour, jobs)
    decreases |jobs|
  {
    if |jobs| == 0 then Run([], None)
    else
      var head := JobStep(event, hour, jobs[0], env);
      JobStepPublishes(event, hour, jobs[0], env);
      AllSucceedCons(jobs, env);
      if head.error.Some? then head
      else
        var rest := RunJobs(event, hour, jobs[1..], env);
        PublishedAppend(head.effects, rest.effects);
        NonterminalAppend(head.effects, rest.effects);
        Run(head.effects + rest.effects, rest.error)
  }

  /** The position of the first job whose publish or keep-alive raises, or `|jobs|` when none does. */
  function FirstFailure(jobs: seq<Job>, env: Env): (k: nat)
    ensures k <= |jobs|
    ensures forall i :: 0 <= i < k ==> Succeeds(jobs[i], env)
    ensures k < |jobs| ==> !Succeeds(jobs[k], env)
    decreases |jobs|
  {
    if |jobs| == 0 || !Succeeds(jobs[0], env) then 0
    else
      var k := FirstFailure(jobs[1..], env);
      assert forall i :: 0 < i <= k ==> jobs[i] == jobs[1..][i - 1];
      1 + k
  }

  /** The effects of the jobs run one after another, each to its end. */
  function Steps(event: Event, hour: string, jobs: seq<Job>, env: Env): seq<Effect>
    decreases |jobs|
  {
    if |jobs| == 0 then []
    else JobStep(event, hour, jobs[0], env).effects + Steps(event, hour, jobs[1..], env)
  }

  /**
   * The loop runs the jobs in order and stops inside the first one that
   * raises: each job before it contributes all its effects, the failing job
   * its effects up to the call that raised, and that call's exception
   * escapes. With no failing job every job runs to its end and nothing
   * escapes.
   */
  lemma RunJobsUntilFailure(event: Event, hour: string, jobs: seq<Job>, env: Env)
    ensures var k := FirstFailure(jobs, env);
      var r := RunJobs(event, hour, jobs, env);
      && (k == |jobs| ==> r == Run(Steps(event, hour, jobs, env), None))
      && (k < |jobs| ==>
            r == Run(Steps(event, hour, jobs[..k], env) + JobStep(event, hour, jobs[k], env).effects,
                     Some(JobError(jobs[k], env))))
  {
    if FirstFailure(jobs, env) == |jobs| {
      RunJobsThrough(event, hour, jobs, env);
    } else {
      RunJobsStops(event, hour, jobs, env);
    }
  }

  lemma {:induction false} RunJobsThrough(event: Event, hour: string, jobs: seq<Job>, env: Env)
    requires FirstFailure(jobs, env) == |jobs|
    ensures RunJobs(event, hour, jobs, env) == Run(Steps(event, hour, jobs, env), None)
    decreases |jobs|
  {
    if |jobs| > 0 {
      RunJobsPastSuccess(event, hour, jobs, env);
      RunJobsThrough(event, hour, jobs[1..], env);
    }
  }

  lemma {:induction false} RunJobsStops(event: Event, hour: string, jobs: seq<Job>, env: Env)
    requires FirstFailure(jobs, env) < |jobs|
    ensures var k := FirstFailure(jobs, env);
      RunJobs(event, hour, jobs, env)
      == Run(Steps(event, hour, jobs[..k], env) + JobStep(event, hour, jobs[k], env).effects,
             Some(JobError(jobs[k], env)))
    decreases |jobs|
  {
    if Succeeds(jobs[0], env) {
      var rest := jobs[1..];
      RunJobsPastSuccess(event, hour, jobs, env);
      RunJobsStops(event, hour, rest, env);
      var k' := FirstFailure(rest, env);
      StepsOfPrefix(event, hour, jobs, env, k' + 1);
      assert rest[k'] == jobs[k' + 1];
      AppendAssoc(JobStep(event, hour, jobs[0], env).effects, Steps(event, hour, rest[..k'], env),
                  JobStep(event, hour, rest[k'], env).effects);
    } else {
      RunJobsAtFailure(event, hour, jobs, env);
    }
  }

  /** A first job that goes through is followed by the run of the others. */
  lemma RunJobsPastSuccess(event: Event, hour: string, jobs: seq<Job>, env: Env)
    requires |jobs| > 0 && Succeeds(jobs[0], env)
    ensures FirstFailure(jobs, env) == 1 + FirstFailure(jobs[1..], env)
    ensures var rest := RunJobs(event, hour, jobs[1..], env);
      RunJobs(event, hour, jobs, env) == Run(JobStep(event, hour, jobs[0], env).effects + rest.effects, rest.error)
  {
  }

  /** A first job that raises ends the run with its own effects and exception. */
  lemma RunJobsAtFailure(event: Event, hour: string, jobs: seq<Job>, env: Env)
    requires |jobs| > 0 && !Succeeds(jobs[0], env)
    ensures FirstFailure(jobs, env) == 0 && jobs[..0] == []
    ensures RunJobs(event, hour, jobs, env)
            == Run(JobStep(event, hour, jobs[0], env).effects, Some(JobError(jobs[0], env)))
  {
  }

  lemma StepsOfPrefix(event: Event, hour: string, jobs: seq<Job>, env: Env, k: nat)
    requires 0 < k <= |jobs|
    ensures Steps(event, hour, jobs[..k], env)
            == JobStep(event, hour, jobs[0], env).effects + Steps(event, hour, jobs[1..][..k - 1], env)
  {
    assert jobs[..k][1..] == jobs[1..][..k - 1];
  }

  lemma AppendAssoc(a: seq<Effect>, b: seq<Effect>, c: seq<Effect>)
    ensures a + (b + c) == a + b + c
  {
  }

  /** Jobs that all go through publish exactly their messages, with four effects each. */
  lemma {:induction false} StepsPublished(event: Event, hour: string, jobs: seq<Job>, env: Env)
    requires AllSucceed(jobs, env)
    ensures Published(Steps(event, hour, jobs, env)) == Messages(event, hour, jobs)
    ensures |Steps(event, hour, jobs, env)| == 4 * |jobs|
    decreases |jobs|
  {
    if |jobs| > 0 {
      AllSucceedCons(jobs, env);
      StepsPublished(event, hour, jobs[1..], env);
      JobStepPublishes(event, hour, jobs[0], env);
      PublishedAppend(JobStep(event, hour, jobs[0], env).effects, Steps(event, hour, jobs[1..], env));
    }
  }

  /**
   * What the loop publishes: the messages of the jobs before the first
   * failing one, then the failing job's own message when its
   * `basic_publish` went through (it was `process_data_events` that raised).
   */
  lemma RunJobsPublished(event: Event, hour: string, jobs: seq<Job>, env: Env)
    ensures var k := FirstFailure(jobs, env);
      Published(RunJobs(event, hour, jobs, env).effects)
      == Messages(event, hour, jobs[..k])
         + (if k < |jobs| && env.publish(jobs[k]).Done? then [Message(event, hour, jobs[k])] else [])
  {
    var k := FirstFailure(jobs, env);
    PrefixSucceeds(jobs, env);
    if k < |jobs| {
      RunJobsStops(event, hour, jobs, env);
      StepsPublished(event, hour, jobs[..k], env);
      JobStepPublishes(event, hour, jobs[k], env);
      PublishedAppend(Steps(event, hour, jobs[..k], env), JobStep(event, hour, jobs[k], env).effects);
    } else {
      RunJobsThrough(event, hour, jobs, env);
      StepsPublished(event, hour, jobs[..k], env);
      assert jobs[..k] == jobs;
    }
  }

  /** The jobs before the first failing one all go through. */
  lemma PrefixSucceeds(jobs: seq<Job>, env: Env)
    ensures AllSucceed(jobs[..FirstFailure(jobs, env)], env)
  {
    var k := FirstFailure(jobs, env);
    assert forall i :: 0 <= i < k ==> jobs[..k][i] == jobs[i];
  }

  /**
   * The four effects of a job that goes through, in the order the loop body
   * records them; the message it publishes carries the key it uploaded to.
   */
  function JobEffects(event: Event, hour: string, job: Job, env: Env): (r: seq<Effect>)
    ensures |r| == 4 && r[0].Render? && r[1].Upload? && r[2].Publish?
    ensures r[2].message.url == r[1].key
  {
    var out := OutputPath(job.parameter, hour, job.region.name);
    [Render(event.filePath, job.parameter,
            Renderer.GenerateMap(out, job.parameter, Some(job.region.bounds), env.backend(job))),
     Upload(out, ObjectKey(event, hour, job), env.upload(job)),
     Publish(ExchangeName, GeneratedKey, Message(event, hour, job)),
     KeepAlive]
  }

  /** `effects` holds the four effects of `block` from position `n` on. */
  predicate BlockAt(effects: seq<Effect>, n: int, block: seq<Effect>)
  {
    && |block| == 4 && 0 <= n && n + 4 <= |effects|
    && effects[n] == block[0] && effects[n + 1] == block[1]
    && effects[n + 2] == block[2] && effects[n + 3] == block[3]
  }

  lemma BlockBefore(a: seq<Effect>, b: seq<Effect>, n: int, block: seq<Effect>)
    requires BlockAt(a, n, block)
    ensures BlockAt(a + b, n, block)
  {
    assert (a + b)[n] == a[n] && (a + b)[n + 1] == a[n + 1];
    assert (a + b)[n + 2] == a[n + 2] && (a + b)[n + 3] == a[n + 3];
  }

  lemma BlockAfter(a: seq<Effect>, b: seq<Effect>, n: int, block: seq<Effect>)
    requires BlockAt(b, n, block)
    ensures BlockAt(a + b, |a| + n, block)
  {
    assert (a + b)[|a| + n] == b[n] && (a + b)[|a| + n + 1] == b[n + 1];
    assert (a + b)[|a| + n + 2] == b[n + 2] && (a + b)[|a| + n + 3] == b[n + 3];
  }

  /** A job that goes through records exactly its four effects. */
  lemma JobStepEffects(event: Event, hour: string, job: Job, env: Env)
    requires Succeeds(job, env)
    ensures JobStep(event, hour, job, env).effects == JobEffects(event, hour, job, env)
  {
  }

  /** Job `i` of jobs that all go through has its four effects at position `4 × i`. */
  lemma {:induction false} StepsLayout(event: Event, hour: string, jobs: seq<Job>, env: Env, i: nat)
    requires AllSucceed(jobs, env) && i < |jobs|
    ensures BlockAt(Steps(event, hour, jobs, env), 4 * i, JobEffects(event, hour, jobs[i], env))
    decreases i
  {
    var head := JobStep(event, hour, jobs[0], env).effects;
    var rest := Steps(event, hour, jobs[1..], env);
    AllSucceedCons(jobs, env);
    JobStepEffects(event, hour, jobs[0], env);
    if i == 0 {
      BlockBefore(head, rest, 0, JobEffects(event, hour, jobs[0], env));
    } else {
      StepsLayout(event, hour, jobs[1..], env, i - 1);
      assert jobs[1..][i - 1] == jobs[i];
      BlockAfter(head, rest, 4 * (i - 1), JobEffects(event, hour, jobs[i], env));
    }
  }

  /**
   * A run of the whole `try` body: no terminal effect inside it except a
   * final acknowledgement, which is there exactly when nothing raised.
   */
  ghost predicate WellEnded(r: Run, tag: nat)
  {
    && (forall i :: 0 <= i < |r.effects| ==> !r.effects[i].Raise? && !r.effects[i].Drop?)
    && (forall i :: 0 <= i < |r.effects| && r.effects[i].Ack? ==>
          i == |r.effects| - 1 && r.effects[i] == Ack(tag) && r.error.None?)
    && (r.error.None? ==> |r.effects| > 0 && r.effects[|r.effects| - 1] == Ack(tag))
  }

  /** `ch.basic_ack`, the last statement of the `try` body. */
  function Acknowledge(effects: seq<Effect>, tag: nat, env: Env): (r: Run)
    requires Nonterminal(effects)
    ensures WellEnded(r, tag)
    ensures |effects| <= |r.effects| && r.effects[..|effects|] == effects
    ensures r.error.None? <==> env.ack.Done?
    ensures r.error.Some? ==> r.error.value == env.ack.error && r.effects == effects
  {
    match env.ack
    case Done => Run(effects + [Ack(tag)], None)
    case Raises(e) => Run(effects, Some(e))
  }

  /** The four fields the `grib.downloaded` branch reads, in the order it reads them. */
  const RequiredFields: seq<string> := ["file_path", "model", "run_date", "run_hour"]

  /**
   * The field whose subscript raises `KeyError`: the first of the four
   * required fields, in reading order, that the message lacks.
   */
  function MissingField(fields: map<string, Value>): (r: Option<string>)
    ensures r.None? <==> "file_path" in fields && "model" in fields && "run_date" in fields && "run_hour" in fields
    ensures r.Some? ==> r.value in RequiredFields && r.value !in fields
    ensures r == Some("model") ==> "file_path" in fields
    ensures r == Some("run_date") ==> "file_path" in fields && "model" in fields
    ensures r == Some("run_hour") ==> "file_path" in fields && "model" in fields && "run_date" in fields
  {
    FirstMissing(RequiredFields, fields)
  }

  /** The event read from a message that has all four fields. */
  function EventOf(fields: map<string, Value>): Event
    requires MissingField(fields).None?
  {
    Event(fields["file_path"], fields["model"], fields["run_date"], fields["run_hour"])
  }

  /** The jobs of one event, then the acknowledgement. */
  function RunEvent(tag: nat, event: Event, regions: seq<Region>, env: Env): (r: Run)
    ensures WellEnded(r, tag)
  {
    var hour := ForecastHour(event.filePath);
    var jobs := RunJobs(event, hour, Matrix(Parameters, regions), env);
    if jobs.error.Some? then jobs else Acknowledge(jobs.effects, tag, env)
  }

  /** The `grib.downloaded` branch. */
  function Downloaded(tag: nat, body: Body, regions: seq<Region>, env: Env): (r: Run)
    requires !body.Unparsable?
    ensures WellEnded(r, tag)
  {
    match body
    case NotAnObject => Run([], Some(TypeError))
    case Object(fields) =>
      match MissingField(fields)
      case Some(name) => Run([], Some(KeyError(name)))
      case None => RunEvent(tag, EventOf(fields), regions, env)
  }

  /** The `map.deleted` branch: delete the `url`, when it is truthy. */
  function Deleted(tag: nat, body: Body, env: Env): (r: Run)
    requires !body.Unparsable?
    ensures WellEnded(r, tag)
  {
    match body
    case NotAnObject => Run([], Some(AttributeError("get")))
    case Object(fields) =>
      var url := Get(fields, "url");
      if !Truthy(url) then Acknowledge([], tag, env)
      else
        match env.delete(url)
        case Raises(e) => Run([], Some(e))
        case Done => Acknowledge([Delete(url)], tag, env)
  }

  /** The `try` body: decode, dispatch on the routing key, acknowledge. */
  function Process(d: Delivery, regions: seq<Region>, env: Env): (r: Run)
    ensures WellEnded(r, d.deliveryTag)
  {
    if d.body.Unparsable? then Run([], Some(JsonDecodeError))
    else if d.routingKey == DownloadedKey then Downloaded(d.deliveryTag, d.body, regions, env)
    else if d.routingKey == DeletedKey then Deleted(d.deliveryTag, d.body, env)
    else Acknowledge([], d.deliveryTag, env)
  }

  /** What the `except` clauses do with an escaped exception. */
  function Terminal(e: Exception): (t: Effect)
    ensures t.Raise? <==> IsAmqp(e)
    ensures t.Raise? || t.Drop?
    ensures t.error == e
  {
    if IsAmqp(e) then Raise(e) else Drop(e)
  }

  /**
   * What the `except` clauses make of a run of the `try` body: the effects,
   * then the terminal effect of whatever escaped. The trace ends in exactly
   * one terminal effect, the acknowledgement comes last and only when no
   * exception escaped, an escaped AMQP error is re-raised and any other
   * escaped exception is dropped without an acknowledgement.
   */
  function Close(r: Run, tag: nat): (trace: seq<Effect>)
    requires WellEnded(r, tag)
    ensures |trace| > 0 && IsTerminal(trace[|trace| - 1])
    ensures forall i :: 0 <= i < |trace| - 1 ==> !IsTerminal(trace[i])
    ensures trace[|trace| - 1].Ack? <==> r.error.None?
    ensures trace[|trace| - 1].Ack? ==> trace[|trace| - 1].deliveryTag == tag
    ensures trace[|trace| - 1].Raise? ==> IsAmqp(trace[|trace| - 1].error)
    ensures trace[|trace| - 1].Drop? ==> !IsAmqp(trace[|trace| - 1].error)
    ensures r.error.Some? ==> trace[|trace| - 1].error == r.error.value
  {
    match r.error
    case None => r.effects
    case Some(e) => r.effects + [Terminal(e)]
  }

  /** The whole callback: the run of the `try` body, closed by the `except` clauses. */
  function Handle(d: Delivery, regions: seq<Region>, env: Env): (trace: seq<Effect>)
    ensures |trace| > 0 && IsTerminal(trace[|trace| - 1])
    ensures forall i :: 0 <= i < |trace| - 1 ==> !IsTerminal(trace[i])
    ensures trace[|trace| - 1].Ack? <==> Process(d, regions, env).error.None?
    ensures trace[|trace| - 1].Ack? ==> trace[|trace| - 1].deliveryTag == d.deliveryTag
    ensures trace[|trace| - 1].Raise? ==> IsAmqp(trace[|trace| - 1].error)
    ensures trace[|trace| - 1].Drop? ==> !IsAmqp(trace[|trace| - 1].error)
    ensures Process(d, regions, env).error.Some? ==>
              trace[|trace| - 1].error == Process(d, regions, env).error.value
  {
    Close(Process(d, regions, env), d.deliveryTag)
  }
}
