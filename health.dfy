/** healthCheck (api/health.go): the failures map is filled one failing
    dependency at a time, then the overall status is chosen from the three
    ping results. A ping result is the failing error's text, or None. */
module Health {
  import opened Wrappers
  import opened Schema

  const StatusOk: string := "OK"
  const StatusUnavailable: string := "Unavailable"
  const StatusPartiallyAvailable: string := "Partially Available"

  const PostgresKey: string := "postgres"
  const RedisKey: string := "redis"
  const SmtpKey: string := "gmail-smtp"

  datatype HealthCheckResponse = HealthCheckResponse(status: string, failures: map<string, string>, timestamp: Time)

  /** The failures entry a dependency contributes: its key and error text
      exactly when its ping failed. */
  predicate Reports(failures: map<string, string>, key: string, ping: Option<string>)
  {
    (key in failures <==> ping.Some?) && (ping.Some? ==> failures[key] == ping.value)
  }

  /** Record a failing ping under its key; a passing ping adds nothing. */
  method RecordFailure(failures: map<string, string>, key: string, ping: Option<string>)
    returns (failures': map<string, string>)
    requires key !in failures
    ensures Reports(failures', key, ping)
    ensures forall k | k in failures :: k in failures' && failures'[k] == failures[k]
    ensures forall k | k in failures' && k != key :: k in failures
  {
    failures' := failures;
    if ping.Some? {
      failures' := failures'[key := ping.value];
    }
  }

  /** The status the if-chain picks: the database decides availability,
      Redis and SMTP only degrade it. */
  function OverallStatus(dbPing: Option<string>, redisPing: Option<string>, smtpPing: Option<string>): (status: string)
    ensures status == StatusOk <==> dbPing.None? && redisPing.None? && smtpPing.None?
    ensures status == StatusUnavailable <==> dbPing.Some?
    ensures status == StatusPartiallyAvailable <==> dbPing.None? && (redisPing.Some? || smtpPing.Some?)
  {
    if dbPing.Some? then StatusUnavailable
    else if redisPing.Some? || smtpPing.Some? then StatusPartiallyAvailable
    else StatusOk
  }

  method HealthCheck(dbPing: Option<string>, redisPing: Option<string>, smtpPing: Option<string>, now: Time)
    returns (code: int, resp: HealthCheckResponse)
    ensures code == 200
    ensures resp.status == OverallStatus(dbPing, redisPing, smtpPing)
    ensures resp.failures.Keys <= {PostgresKey, RedisKey, SmtpKey}
    ensures Reports(resp.failures, PostgresKey, dbPing)
    ensures Reports(resp.failures, RedisKey, redisPing)
    ensures Reports(resp.failures, SmtpKey, smtpPing)
    ensures resp.timestamp == now
  {
    var failures: map<string, string> := map[];
    failures := RecordFailure(failures, PostgresKey, dbPing);
    failures := RecordFailure(failures, RedisKey, redisPing);
    failures := RecordFailure(failures, SmtpKey, smtpPing);

    var status := StatusOk;
    if dbPing.Some? {
      status := StatusUnavailable;
    } else if redisPing.Some? || smtpPing.Some? {
      status := StatusPartiallyAvailable;
    }

    resp := HealthCheckResponse(status, failures, now);
    code := 200;
  }

  /** The map is empty exactly when the status is OK. */
  lemma NoFailuresIffOk(failures: map<string, string>, dbPing: Option<string>, redisPing: Option<string>, smtpPing: Option<string>)
    requires failures.Keys <= {PostgresKey, RedisKey, SmtpKey}
    requires Reports(failures, PostgresKey, dbPing)
    requires Reports(failures, RedisKey, redisPing)
    requires Reports(failures, SmtpKey, smtpPing)
    ensures failures == map[] <==> OverallStatus(dbPing, redisPing, smtpPing) == StatusOk
  {
    if failures == map[] {
      assert PostgresKey !in failures && RedisKey !in failures && SmtpKey !in failures;
    } else {
      var k :| k in failures;
      assert k == PostgresKey || k == RedisKey || k == SmtpKey;
    }
  }
}
