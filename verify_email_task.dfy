/** The send-verify-email task (worker/task_send_verify_email.go): the
    distributor encodes the payload and enqueues the task; the processor
    decodes it, looks the user up and tells the queue whether the task is
    done, should be retried, or failed for good (asynq.SkipRetry). JSON
    encoding and the Redis client are function parameters. */
module VerifyEmailTask {
  import opened Wrappers
  import opened DbErrors
  import opened Schema
  import UQ = UsersQueries

  const TaskSendVerifyEmail: string := "email:verify"
  const QueueCritical: string := "critical"
  const QueueDefault: string := "default"

  newtype byte = x: int | 0 <= x < 256

  datatype PayloadSendVerifyEmail = PayloadSendVerifyEmail(username: string)

  /** The asynq options the core passes. */
  datatype TaskOption = MaxRetry(n: int) | ProcessIn(delay: Duration) | Queue(name: string)

  /** asynq.NewTask: a type name, the encoded payload and the options. */
  datatype Task = Task(typeName: string, payload: seq<byte>, opts: seq<TaskOption>)

  /** What DistributeTaskSendVerifyEmail did: the task it handed to the
      client, if it got that far, and the error it returned. */
  datatype Distribution = Distribution(attempted: Option<Task>, err: Option<Error>)

  /** DistributeTaskSendVerifyEmail; `marshal` is json.Marshal and
      `enqueue` is the client's answer to enqueuing a task. */
  function DistributeTaskSendVerifyEmail(
    payload: PayloadSendVerifyEmail, opts: seq<TaskOption>,
    marshal: PayloadSendVerifyEmail -> Result<seq<byte>, Error>,
    enqueue: Task -> Option<Error>): (r: Distribution)
    ensures marshal(payload).Err? ==>
              r == Distribution(None, Some(Wrapped("failed to marshal task payload", marshal(payload).error)))
    ensures marshal(payload).Ok? ==>
              && r.attempted == Some(Task(TaskSendVerifyEmail, marshal(payload).value, opts))
              && (r.err.None? <==> enqueue(r.attempted.value).None?)
              && (r.err.Some? ==> r.err.value == Wrapped("failed to enqueue task", enqueue(r.attempted.value).value))
  {
    var m := marshal(payload);
    if m.Err? then Distribution(None, Some(Wrapped("failed to marshal task payload", m.error)))
    else
      var task := Task(TaskSendVerifyEmail, m.value, opts);
      var e := enqueue(task);
      if e.Some? then Distribution(Some(task), Some(Wrapped("failed to enqueue task", e.value)))
      else Distribution(Some(task), None)
  }

  /** ProcessTaskSendVerifyEmail against the users table; `unmarshal` is
      json.Unmarshal and `fault` the driver's failure of the lookup. */
  function ProcessTaskSendVerifyEmail(
    task: Task, unmarshal: seq<byte> -> Result<PayloadSendVerifyEmail, Error>,
    db: Db, fault: Option<Error>): (r: Option<Error>)
    ensures unmarshal(task.payload).Err? ==> r == Some(Wrapped("failed to unmarshal payload", SkipRetry))
    ensures unmarshal(task.payload).Ok? ==>
              var lookup := UQ.GetUser(db, unmarshal(task.payload).value.username, fault);
              && (lookup.err.None? ==> r.None?)
              && (lookup.err.Some? && Is(lookup.err.value, ErrNoRows) ==>
                    r == Some(Wrapped("user does not exist", SkipRetry)))
              && (lookup.err.Some? && !Is(lookup.err.value, ErrNoRows) ==>
                    r == Some(Wrapped("failed to get user", lookup.err.value)))
  {
    var p := unmarshal(task.payload);
    if p.Err? then Some(Wrapped("failed to unmarshal payload", SkipRetry))
    else
      var lookup := UQ.GetUser(db, p.value.username, fault);
      if lookup.err.None? then None
      else if Is(lookup.err.value, ErrNoRows) then Some(Wrapped("user does not exist", SkipRetry))
      else Some(Wrapped("failed to get user", lookup.err.value))
  }

  /** What the queue does with a handler's result: a nil error completes
      the task, an error wrapping SkipRetry archives it, any other error is
      retried. */
  datatype Outcome = Done | Retry | Archive

  function Classify(err: Option<Error>): (o: Outcome)
    ensures o == Done <==> err.None?
    ensures o == Archive <==> err.Some? && Is(err.value, SkipRetry)
  {
    if err.None? then Done
    else if Is(err.value, SkipRetry) then Archive
    else Retry
  }

  /** No driver error is, or wraps, asynq.SkipRetry. */
  predicate DriverFault(fault: Option<Error>)
  {
    fault.None? || !Is(fault.value, SkipRetry)
  }

  /** The processor's three outcomes: an undecodable payload or an unknown
      user is permanent; any other lookup failure is retried; a known user
      completes the task (no email is sent and no row written). */
  lemma ProcessOutcome(task: Task, unmarshal: seq<byte> -> Result<PayloadSendVerifyEmail, Error>,
                       db: Db, fault: Option<Error>)
    requires DriverFault(fault)
    ensures var o := Classify(ProcessTaskSendVerifyEmail(task, unmarshal, db, fault));
            && (unmarshal(task.payload).Err? ==> o == Archive)
            && (unmarshal(task.payload).Ok? ==>
                  var name := unmarshal(task.payload).value.username;
                  && (o == Done <==> fault.None? && name in db.users)
                  && (o == Archive <==> (fault.None? && name !in db.users) || (fault.Some? && Is(fault.value, ErrNoRows)))
                  && (o == Retry <==> fault.Some? && !Is(fault.value, ErrNoRows)))
  {
    if unmarshal(task.payload).Ok? {
      var name := unmarshal(task.payload).value.username;
      var lookup := UQ.GetUser(db, name, fault);
      if lookup.err.Some? && !Is(lookup.err.value, ErrNoRows) {
        assert Wrapped("failed to get user", lookup.err.value) != SkipRetry;
      }
    }
  }

  /** A task the distributor enqueued for an existing user is completed by
      the processor, provided decoding inverts encoding. */
  lemma DistributeThenProcess(
    payload: PayloadSendVerifyEmail, opts: seq<TaskOption>,
    marshal: PayloadSendVerifyEmail -> Result<seq<byte>, Error>,
    unmarshal: seq<byte> -> Result<PayloadSendVerifyEmail, Error>,
    enqueue: Task -> Option<Error>, db: Db)
    requires marshal(payload).Ok? ==> unmarshal(marshal(payload).value) == Ok(payload)
    requires payload.username in db.users
    ensures var d := DistributeTaskSendVerifyEmail(payload, opts, marshal, enqueue);
            d.err.None? ==>
              && d.attempted.Some? && d.attempted.value.typeName == TaskSendVerifyEmail
              && Classify(ProcessTaskSendVerifyEmail(d.attempted.value, unmarshal, db, None)) == Done
  {
  }
}
