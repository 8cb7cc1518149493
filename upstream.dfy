/** `api_check`: one call to the quota API, retried once when no response was obtained. */
module Upstream {
  import opened Report
  import opened Effects

  /**
   * `api_check(msisdn)` made when the log holds `at` events: the answer, and the calls
   * appended. The second call is made only when the first got status 0 and RETRIES > 0.
   */
  function Check(o: Oracles, retries: int, at: nat, msisdn: string): (Response, seq<Event>) {
    var first := o.upstream(at, msisdn);
    if first.status == 0 && retries > 0 then (o.upstream(at + 1, msisdn), [Post(msisdn), Post(msisdn)])
    else (first, [Post(msisdn)])
  }

  method ApiCheck(o: Oracles, retries: int, log: Log, msisdn: string) returns (resp: Response, log': Log)
    ensures resp == Check(o, retries, |log|, msisdn).0
    ensures log' == log + Check(o, retries, |log|, msisdn).1
  {
    resp := o.upstream(|log|, msisdn);
    log' := log + [Post(msisdn)];
    if resp.status == 0 && retries > 0 {
      resp := o.upstream(|log'|, msisdn);
      log' := log' + [Post(msisdn)];
    }
  }

  /**
   * At most two calls, all for the same number and nothing else; the second iff the first
   * got no response and a retry is configured; the answer is that of the last call.
   */
  lemma RetryRule(o: Oracles, retries: int, at: nat, msisdn: string)
    ensures var (resp, calls) := Check(o, retries, at, msisdn);
      var retried := o.upstream(at, msisdn).status == 0 && retries > 0;
      && calls == [Post(msisdn)] + (if retried then [Post(msisdn)] else [])
      && 1 <= PostCount(calls) <= 2 && SendCount(calls) == 0
      && (PostCount(calls) == 2 <==> retried)
      && resp == o.upstream(at + |calls| - 1, msisdn)
  {
    var (resp, calls) := Check(o, retries, at, msisdn);
    var retried := o.upstream(at, msisdn).status == 0 && retries > 0;
    if retried {
      assert calls[1..][1..] == [];
    } else {
      assert calls[1..] == [];
    }
  }

  /** With RETRIES = 0 a failed first call is final. */
  lemma NoRetryWithoutBudget(o: Oracles, retries: int, at: nat, msisdn: string)
    requires retries <= 0
    ensures Check(o, retries, at, msisdn) == (o.upstream(at, msisdn), [Post(msisdn)])
  {
  }

  /** Two transport failures in a row end in the "no payload" report, not an error. */
  lemma RetryExhausted(o: Oracles, retries: int, at: nat, msisdn: string)
    requires o.upstream(at, msisdn) == Response(0, JNull)
    requires o.upstream(at + 1, msisdn) == Response(0, JNull)
    ensures var (resp, _) := Check(o, retries, at, msisdn);
      && resp == Response(0, JNull)
      && Render(o.lib, msisdn, resp.status, resp.data)
         == HeaderLine(msisdn) + "\n" + "Status HTTP: `0`" + "\n" + NoPayloadLine
  {
    TransportFailureReport(o.lib, msisdn);
  }
}
