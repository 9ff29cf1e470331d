/** Run-time overrides of a job: from the RunJob request through the queue message into the job. */
module Overrides {
  import opened Common

  /** A float32; only finite ones have a JSON form. */
  datatype Float32 = Finite(value: real) | NaN | Infinite(negative: bool)

  /** Absent repeated and bytes fields are empty; `optional` scalars may be absent. */
  datatype RunJobRequest = RunJobRequest(
    jobId: string, priority: Option<int>,
    payload: seq<bv8>, entrypoint: seq<string>,
    idleTimeoutSeconds: Option<Float32>, maxAttempts: Option<Float32>, timeoutSeconds: Option<Float32>)

  datatype JobOverrides = JobOverrides(
    payload: seq<bv8>, entrypoint: seq<string>,
    idleTimeoutSeconds: Option<Float32>, maxAttempts: Option<Float32>, timeoutSeconds: Option<Float32>)

  datatype JobMessage = JobMessage(jobId: string, attempt: int, priority: int, overrides: Option<JobOverrides>)

  /** The fields of a job an override may touch. */
  datatype JobFields = JobFields(
    payload: seq<bv8>, entrypoint: seq<string>,
    idleTimeoutSeconds: Float32, maxAttempts: Float32, timeoutSeconds: Float32)

  // ---------- the JSON body of a message ----------

  /** JSON as far as messages use it; a byte string stands for its base64 text. */
  datatype Json =
    | Null
    | Number(n: real)
    | Text(s: string)
    | Bytes(b: seq<bv8>)
    | Strings(a: seq<string>)
    | Object(fields: map<string, Json>)

  predicate Encodable(o: JobOverrides) {
    && (o.idleTimeoutSeconds.Some? ==> o.idleTimeoutSeconds.value.Finite?)
    && (o.maxAttempts.Some? ==> o.maxAttempts.value.Finite?)
    && (o.timeoutSeconds.Some? ==> o.timeoutSeconds.value.Finite?)
  }

  /** `omitempty`: nil pointers and empty slices leave no member behind. */
  function EncodeFloat(key: string, f: Option<Float32>): map<string, Json> {
    if f.Some? && f.value.Finite? then map[key := Number(f.value.value)] else map[]
  }

  function EncodeOverrides(o: JobOverrides): Json {
    Object(
      (if o.payload == [] then map[] else map["payload" := Bytes(o.payload)])
      + (if o.entrypoint == [] then map[] else map["entrypoint" := Strings(o.entrypoint)])
      + EncodeFloat("idle_timeout_seconds", o.idleTimeoutSeconds)
      + EncodeFloat("max_attempts", o.maxAttempts)
      + EncodeFloat("timeout_seconds", o.timeoutSeconds))
  }

  /** `json.Marshal`: an error on a float that is not finite. */
  function Encode(m: JobMessage): Option<Json> {
    if m.overrides.Some? && !Encodable(m.overrides.value) then None
    else Some(Object(
      map["job_id" := Text(m.jobId), "attempt" := Number(m.attempt as real), "priority" := Number(m.priority as real)]
      + (if m.overrides.None? then map[] else map["overrides" := EncodeOverrides(m.overrides.value)])))
  }

  /** A member that is missing or null leaves the zero value; one of the wrong type is an error. */
  function DecodeFloat(fields: map<string, Json>, key: string): Option<Option<Float32>> {
    if key !in fields || fields[key].Null? then Some(None)
    else if fields[key].Number? then Some(Some(Finite(fields[key].n)))
    else None
  }

  function DecodeInt(fields: map<string, Json>, key: string): Option<int> {
    if key !in fields || fields[key].Null? then Some(0)
    else if fields[key].Number? && fields[key].n.Floor as real == fields[key].n then Some(fields[key].n.Floor)
    else None
  }

  function DecodeOverrides(j: Json): Option<JobOverrides> {
    if !j.Object? then None
    else
      var f := j.fields;
      var payload := if "payload" !in f || f["payload"].Null? then Some([])
                     else if f["payload"].Bytes? then Some(f["payload"].b) else None;
      var entrypoint := if "entrypoint" !in f || f["entrypoint"].Null? then Some([])
                        else if f["entrypoint"].Strings? then Some(f["entrypoint"].a) else None;
      var idle := DecodeFloat(f, "idle_timeout_seconds");
      var attempts := DecodeFloat(f, "max_attempts");
      var timeout := DecodeFloat(f, "timeout_seconds");
      if payload.None? || entrypoint.None? || idle.None? || attempts.None? || timeout.None? then None
      else Some(JobOverrides(payload.value, entrypoint.value, idle.value, attempts.value, timeout.value))
  }

  /** `json.Unmarshal` into a JobMessage; None is the error that rejects the delivery. */
  function Decode(j: Json): Option<JobMessage> {
    if !j.Object? then None
    else
      var f := j.fields;
      var id := if "job_id" !in f || f["job_id"].Null? then Some("")
                else if f["job_id"].Text? then Some(f["job_id"].s) else None;
      var attempt := DecodeInt(f, "attempt");
      var priority := DecodeInt(f, "priority");
      var overrides := if "overrides" !in f || f["overrides"].Null? then Some(None)
                       else if DecodeOverrides(f["overrides"]).None? then None
                       else Some(DecodeOverrides(f["overrides"]));
      if id.None? || attempt.None? || priority.None? || overrides.None? then None
      else Some(JobMessage(id.value, attempt.value, priority.value, overrides.value))
  }

  /** The members of the body, by name. */
  lemma MessageMembers(m: JobMessage)
    ensures Encode(m).Some? ==>
              && Encode(m).value.Object?
              && var f := Encode(m).value.fields;
                 && f.Keys == {"job_id", "attempt", "priority"} + (if m.overrides.Some? then {"overrides"} else {})
                 && f["job_id"] == Text(m.jobId)
                 && f["attempt"] == Number(m.attempt as real) && f["priority"] == Number(m.priority as real)
                 && (m.overrides.Some? ==> f["overrides"] == EncodeOverrides(m.overrides.value))
  {
  }

  /** The members of the overrides, by name; with `SliceMembers`, those that are set and no others. */
  lemma OverrideMembers(o: JobOverrides)
    requires Encodable(o)
    ensures var f := EncodeOverrides(o).fields;
            && f.Keys <= {"payload", "entrypoint", "idle_timeout_seconds", "max_attempts", "timeout_seconds"}
            && HoldsFloat(f, "idle_timeout_seconds", o.idleTimeoutSeconds)
            && HoldsFloat(f, "max_attempts", o.maxAttempts)
            && HoldsFloat(f, "timeout_seconds", o.timeoutSeconds)
  {
  }

  /** A set number is a member, an absent one is not. */
  predicate HoldsFloat(fields: map<string, Json>, key: string, f: Option<Float32>) {
    && (key in fields <==> f.Some?)
    && (f.Some? ==> f.value.Finite? && fields[key] == Number(f.value.value))
  }

  lemma FloatRoundTrip(fields: map<string, Json>, key: string, f: Option<Float32>)
    requires f.Some? ==> f.value.Finite?
    requires if f.None? then key !in fields else key in fields && fields[key] == Number(f.value.value)
    ensures DecodeFloat(fields, key) == Some(f)
  {
  }

  lemma FloatMembers(o: JobOverrides)
    requires Encodable(o)
    ensures var f := EncodeOverrides(o).fields;
            && DecodeFloat(f, "idle_timeout_seconds") == Some(o.idleTimeoutSeconds)
            && DecodeFloat(f, "max_attempts") == Some(o.maxAttempts)
            && DecodeFloat(f, "timeout_seconds") == Some(o.timeoutSeconds)
  {
    var f := EncodeOverrides(o).fields;
    FloatRoundTrip(f, "idle_timeout_seconds", o.idleTimeoutSeconds);
    FloatRoundTrip(f, "max_attempts", o.maxAttempts);
    FloatRoundTrip(f, "timeout_seconds", o.timeoutSeconds);
  }

  lemma SliceMembers(o: JobOverrides)
    ensures var f := EncodeOverrides(o).fields;
            && ("payload" in f <==> o.payload != []) && ("payload" in f ==> f["payload"] == Bytes(o.payload))
            && ("entrypoint" in f <==> o.entrypoint != [])
                && ("entrypoint" in f ==> f["entrypoint"] == Strings(o.entrypoint))
  {
  }

  lemma OverridesRoundTrip(o: JobOverrides)
    requires Encodable(o)
    ensures DecodeOverrides(EncodeOverrides(o)) == Some(o)
  {
    FloatMembers(o);
    SliceMembers(o);
  }

  lemma ScalarMembers(m: JobMessage)
    requires Encode(m).Some?
    ensures var f := Encode(m).value.fields;
            && "job_id" in f && f["job_id"] == Text(m.jobId)
            && DecodeInt(f, "attempt") == Some(m.attempt) && DecodeInt(f, "priority") == Some(m.priority)
  {
    var f := Encode(m).value.fields;
    assert f["attempt"] == Number(m.attempt as real) && f["priority"] == Number(m.priority as real);
  }

  lemma OverridesMember(m: JobMessage)
    requires Encode(m).Some?
    ensures var f := Encode(m).value.fields;
            && ("overrides" in f <==> m.overrides.Some?)
            && (m.overrides.Some? ==> f["overrides"] == EncodeOverrides(m.overrides.value))
  {
  }

  /** Every message that can be encoded survives the queue unchanged. */
  lemma MessageRoundTrip(m: JobMessage)
    ensures Encode(m).None? <==> m.overrides.Some? && !Encodable(m.overrides.value)
    ensures Encode(m).Some? ==> Decode(Encode(m).value) == Some(m)
  {
    if Encode(m).Some? {
      ScalarMembers(m);
      OverridesMember(m);
      if m.overrides.Some? {
        OverridesRoundTrip(m.overrides.value);
      }
    }
  }

  // ---------- building and applying ----------

  /**
    `buildOverridesOps`: nil when nothing is set, else the set fields.  What is absent in the
    request is absent in the overrides, explicit zero floats are kept.
   */
  method BuildOverrides(req: RunJobRequest) returns (ops: Option<JobOverrides>)
    ensures ops == Built(req)
    ensures ops.None? <==> && req.payload == [] && req.entrypoint == [] && req.idleTimeoutSeconds.None?
                           && req.maxAttempts.None? && req.timeoutSeconds.None?
    ensures ops.Some? ==>
              var o := ops.value;
              && o.payload == req.payload && o.entrypoint == req.entrypoint
              && o.idleTimeoutSeconds == req.idleTimeoutSeconds && o.maxAttempts == req.maxAttempts
              && o.timeoutSeconds == req.timeoutSeconds
  {
    var o := JobOverrides([], [], None, None, None);
    var hasOverrides := false;
    if |req.payload| > 0 {
      o := o.(payload := req.payload);
      hasOverrides := true;
    }
    if |req.entrypoint| > 0 {
      o := o.(entrypoint := req.entrypoint);
      hasOverrides := true;
    }
    if req.idleTimeoutSeconds.Some? {
      o := o.(idleTimeoutSeconds := Some(req.idleTimeoutSeconds.value));
      hasOverrides := true;
    }
    if req.maxAttempts.Some? {
      o := o.(maxAttempts := Some(req.maxAttempts.value));
      hasOverrides := true;
    }
    if req.timeoutSeconds.Some? {
      o := o.(timeoutSeconds := Some(req.timeoutSeconds.value));
      hasOverrides := true;
    }
    ops := if hasOverrides then Some(o) else None;
  }

  /** The request's five fields as overrides, or nothing if they are all unset. */
  function Built(req: RunJobRequest): Option<JobOverrides> {
    var o := JobOverrides(req.payload, req.entrypoint, req.idleTimeoutSeconds, req.maxAttempts, req.timeoutSeconds);
    if o == JobOverrides([], [], None, None, None) then None else Some(o)
  }

  function OrElse<T>(f: Option<T>, default: T): T {
    if f.Some? then f.value else default
  }

  function Applied(job: JobFields, ops: Option<JobOverrides>): JobFields {
    if ops.None? then job
    else
      var o := ops.value;
      JobFields(
        if o.payload != [] then o.payload else job.payload,
        if o.entrypoint != [] then o.entrypoint else job.entrypoint,
        OrElse(o.idleTimeoutSeconds, job.idleTimeoutSeconds),
        OrElse(o.maxAttempts, job.maxAttempts),
        OrElse(o.timeoutSeconds, job.timeoutSeconds))
  }

  class Job {
    var payload: seq<bv8>
    var entrypoint: seq<string>
    var idleTimeoutSeconds: Float32
    var maxAttempts: Float32
    var timeoutSeconds: Float32

    constructor (f: JobFields)
      ensures Fields() == f
    {
      payload, entrypoint := f.payload, f.entrypoint;
      idleTimeoutSeconds, maxAttempts, timeoutSeconds := f.idleTimeoutSeconds, f.maxAttempts, f.timeoutSeconds;
    }

    function Fields(): JobFields
      reads this
    {
      JobFields(payload, entrypoint, idleTimeoutSeconds, maxAttempts, timeoutSeconds)
    }

    method ApplyOverrides(ops: Option<JobOverrides>)
      modifies this
      ensures Fields() == Applied(old(Fields()), ops)
    {
      if ops.None? {
        return;
      }
      if |ops.value.payload| > 0 {
        payload := ops.value.payload;
      }
      if |ops.value.entrypoint| > 0 {
        entrypoint := ops.value.entrypoint;
      }
      if ops.value.timeoutSeconds.Some? {
        timeoutSeconds := ops.value.timeoutSeconds.value;
      }
      if ops.value.maxAttempts.Some? {
        maxAttempts := ops.value.maxAttempts.value;
      }
      if ops.value.idleTimeoutSeconds.Some? {
        idleTimeoutSeconds := ops.value.idleTimeoutSeconds.value;
      }
    }
  }

  /** What the caller of RunJob asked for: each field that is set, and the job's own otherwise. */
  predicate AsRequested(before: JobFields, req: RunJobRequest, after: JobFields) {
    && after.payload == (if req.payload == [] then before.payload else req.payload)
    && after.entrypoint == (if req.entrypoint == [] then before.entrypoint else req.entrypoint)
    && (req.idleTimeoutSeconds.Some? ==> after.idleTimeoutSeconds == req.idleTimeoutSeconds.value)
    && (req.idleTimeoutSeconds.None? ==> after.idleTimeoutSeconds == before.idleTimeoutSeconds)
    && (req.maxAttempts.Some? ==> after.maxAttempts == req.maxAttempts.value)
    && (req.maxAttempts.None? ==> after.maxAttempts == before.maxAttempts)
    && (req.timeoutSeconds.Some? ==> after.timeoutSeconds == req.timeoutSeconds.value)
    && (req.timeoutSeconds.None? ==> after.timeoutSeconds == before.timeoutSeconds)
  }

  /** The message RunJob publishes. */
  function RunMessage(req: RunJobRequest): JobMessage {
    JobMessage(req.jobId, 1, OrElse(req.priority, 0), Built(req))
  }

  /** A float in the request that has no JSON form. */
  predicate HasOddFloat(req: RunJobRequest) {
    || (req.idleTimeoutSeconds.Some? && !req.idleTimeoutSeconds.value.Finite?)
    || (req.maxAttempts.Some? && !req.maxAttempts.value.Finite?)
    || (req.timeoutSeconds.Some? && !req.timeoutSeconds.value.Finite?)
  }

  /**
    For every request and every job: the request can be published exactly if its floats are finite,
    and then the consumer decodes it, applying it gives exactly what was asked for, and applying it
    a second time (a redelivery) changes nothing.
   */
  lemma OverridesSurviveTransport(req: RunJobRequest, job: JobFields)
    ensures Encode(RunMessage(req)).Some? <==> !HasOddFloat(req)
    ensures !HasOddFloat(req) ==>
              var received := Decode(Encode(RunMessage(req)).value);
              && received.Some? && received.value.jobId == req.jobId && received.value.attempt == 1
              && received.value.priority == (if req.priority.Some? then req.priority.value else 0)
              && AsRequested(job, req, Applied(job, received.value.overrides))
              && Applied(Applied(job, received.value.overrides), received.value.overrides)
                 == Applied(job, received.value.overrides)
  {
    MessageRoundTrip(RunMessage(req));
  }
}
