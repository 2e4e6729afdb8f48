/** The io_service seen from one `connect` call: it runs the resolution and
    every connect attempt to completion, one at a time, taking their results
    from an oracle, and feeds each completion back to the producer. */
module Reactor {
  import opened KafkaTypes
  import opened ConnectFailover
  import opened KafkaProducer

  /** One `connect` followed by all of its completions. The resolver answers
      `resolveError` and, on success, `endpoints`; `outcomes[i]` is how the
      attempt on `endpoints[i]` completes. */
  method RunConnect(p: Producer, host: string, service: string, handler: Option<HandlerRef>,
                    resolveError: ErrorCode, endpoints: seq<Endpoint>, outcomes: seq<ErrorCode>)
    returns (accepted: bool, report: Report)
    requires resolveError == Success ==> |endpoints| > 0 && |outcomes| == |endpoints|
    modifies p
    ensures accepted == !old(p.connecting)
    ensures p.socketGeneration == old(p.socketGeneration)
    ensures !accepted ==>
      report == NoReport && p.connecting &&
      p.connected == old(p.connected) && p.resolveRequests == old(p.resolveRequests) &&
      p.attempted == old(p.attempted) && p.livenessReads == old(p.livenessReads)
    ensures accepted ==>
      !p.connecting && p.resolveRequests == old(p.resolveRequests) + [Query(host, service, handler)]
    ensures accepted && resolveError != Success ==>
      report == ReportError(resolveError, handler) &&
      p.connected == old(p.connected) &&
      p.attempted == old(p.attempted) && p.livenessReads == old(p.livenessReads)
    ensures accepted && resolveError == Success ==>
      var f := Failover(endpoints, outcomes, handler);
      report == f.report &&
      p.connected == (f.connected || old(p.connected)) &&
      p.attempted == old(p.attempted) + f.attempted &&
      p.livenessReads == old(p.livenessReads) + (if f.connected then 1 else 0)
  {
    accepted := p.Connect(host, service, handler);
    if !accepted {
      return accepted, NoReport;
    }
    ghost var before := p.attempted;
    ghost var wasConnected := p.connected;
    ghost var liveness := p.livenessReads;
    var step := p.HandleResolve(resolveError, endpoints, handler);
    if resolveError != Success {
      return accepted, step.report;
    }
    var i := 0;
    while step.Attempt?
      invariant 0 <= i < |endpoints|
      invariant p.socketGeneration == old(p.socketGeneration)
      invariant p.resolveRequests == old(p.resolveRequests) + [Query(host, service, handler)]
      invariant forall j :: 0 <= j < i ==> outcomes[j] != Success
      invariant step.Attempt? ==>
        step.endpoint == endpoints[i] && step.rest == endpoints[i + 1..] &&
        p.connecting && p.connected == wasConnected &&
        p.attempted == before + endpoints[..i + 1] && p.livenessReads == liveness
      invariant step.Done? ==>
        var f := Failover(endpoints, outcomes, handler);
        step.report == f.report && !p.connecting &&
        p.connected == (f.connected || wasConnected) &&
        p.attempted == before + f.attempted &&
        p.livenessReads == liveness + (if f.connected then 1 else 0)
      decreases |endpoints| - i, if step.Attempt? then 1 else 0
    {
      var rest := step.rest;
      step := p.HandleConnect(outcomes[i], rest, handler);
      if outcomes[i] == Success {
        FailoverFirstSuccess(endpoints, outcomes, handler, i);
      } else if rest != [] {
        assert rest[1..] == endpoints[i + 2..];
        assert before + endpoints[..i + 2] == before + endpoints[..i + 1] + [rest[0]];
        i := i + 1;
      } else {
        FailoverExhausted(endpoints, outcomes, handler);
        assert endpoints[..i + 1] == endpoints;
      }
    }
    report := step.report;
  }

  /** A client's view: the name resolves to two endpoints, the first refuses
      the connection (ECONNREFUSED, 111 on Linux) and the second accepts;
      closing afterwards leaves a fresh socket for the next `connect`. */
  method ExampleFailover()
  {
    var p := new Producer();
    var a, b := Endpoint("10.0.0.1", 9092), Endpoint("10.0.0.2", 9092);
    var accepted, report := RunConnect(p, "broker.example.com", "9092", None, Success, [a, b], [111, Success]);
    FailoverFirstSuccess([a, b], [111, Success], None, 1);
    assert accepted && report == NoReport;
    assert p.connected && !p.connecting && p.attempted == [a, b];
    var closed := p.Close();
    assert closed && !p.connected && p.socketGeneration == 1;
    var again := p.Connect("broker.example.com", "9092", Some(7));
    assert again && p.connecting;
    var refused := p.Connect("broker.example.com", "9092", Some(7));
    assert !refused && |p.resolveRequests| == 2;
  }
}
