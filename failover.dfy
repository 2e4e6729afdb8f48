/** The failover chain run by the producer's completions, as a function of the
    resolved endpoints and of the outcome of each connect attempt. */
module ConnectFailover {
  import opened KafkaTypes

  /** Everything one resolved `connect` leads to: the endpoints attempted, in
      the order attempted, whether the producer became connected, and the
      report made to the caller. */
  datatype FailoverResult = FailoverResult(attempted: seq<Endpoint>, connected: bool, report: Report)

  /** `handle_resolve` attempts the endpoint under the iterator; `handle_connect`
      then either succeeds, hands the advanced iterator back to
      `handle_resolve`, or, with no endpoint left, reports the error of the
      last attempt. `outcomes[i]` is the completion code of the attempt on
      `endpoints[i]`. */
  function Failover(endpoints: seq<Endpoint>, outcomes: seq<ErrorCode>, handler: Option<HandlerRef>): FailoverResult
    requires |endpoints| > 0 && |outcomes| == |endpoints|
    decreases |endpoints|
  {
    if outcomes[0] == Success then FailoverResult([endpoints[0]], true, NoReport)
    else if |endpoints| == 1 then FailoverResult([endpoints[0]], false, ReportError(outcomes[0], handler))
    else
      var tail := Failover(endpoints[1..], outcomes[1..], handler);
      tail.(attempted := [endpoints[0]] + tail.attempted)
  }

  /** Endpoints are attempted in resolver order, one at a time, none skipped
      and none repeated: what is attempted is a non-empty prefix of the
      resolved list, and every attempt but the last one failed. */
  lemma {:induction false} FailoverAttemptsInOrder(endpoints: seq<Endpoint>, outcomes: seq<ErrorCode>, handler: Option<HandlerRef>)
    requires |endpoints| > 0 && |outcomes| == |endpoints|
    ensures var r := Failover(endpoints, outcomes, handler);
      1 <= |r.attempted| <= |endpoints| &&
      r.attempted == endpoints[..|r.attempted|] &&
      forall j :: 0 <= j < |r.attempted| - 1 ==> outcomes[j] != Success
    decreases |endpoints|
  {
    if outcomes[0] != Success && |endpoints| > 1 {
      FailoverAttemptsInOrder(endpoints[1..], outcomes[1..], handler);
      var t := Failover(endpoints[1..], outcomes[1..], handler);
      assert endpoints[..|t.attempted| + 1] == [endpoints[0]] + endpoints[1..][..|t.attempted|];
      forall j | 0 <= j < |t.attempted|
        ensures outcomes[j] != Success
      {
        if j > 0 { assert outcomes[j] == outcomes[1..][j - 1]; }
      }
    }
  }

  /** The first successful attempt wins: if attempts `0 .. k-1` fail and
      attempt `k` succeeds, exactly endpoints `0 .. k` are attempted, the
      producer is connected and nothing is reported. */
  lemma {:induction false} FailoverFirstSuccess(endpoints: seq<Endpoint>, outcomes: seq<ErrorCode>, handler: Option<HandlerRef>, k: nat)
    requires |endpoints| > 0 && |outcomes| == |endpoints|
    requires k < |outcomes| && outcomes[k] == Success
    requires forall j :: 0 <= j < k ==> outcomes[j] != Success
    ensures Failover(endpoints, outcomes, handler) == FailoverResult(endpoints[..k + 1], true, NoReport)
    decreases k
  {
    if k > 0 {
      FailoverFirstSuccess(endpoints[1..], outcomes[1..], handler, k - 1);
      assert endpoints[..k + 1] == [endpoints[0]] + endpoints[1..][..k];
    }
  }

  /** When every attempt fails, every endpoint is attempted, the producer is
      not connected, and the error of the last endpoint alone is reported:
      to the handler, or thrown when there is none. */
  lemma {:induction false} FailoverExhausted(endpoints: seq<Endpoint>, outcomes: seq<ErrorCode>, handler: Option<HandlerRef>)
    requires |endpoints| > 0 && |outcomes| == |endpoints|
    requires forall j :: 0 <= j < |outcomes| ==> outcomes[j] != Success
    ensures Failover(endpoints, outcomes, handler)
         == FailoverResult(endpoints, false, ReportError(outcomes[|outcomes| - 1], handler))
    decreases |endpoints|
  {
    if |endpoints| > 1 {
      FailoverExhausted(endpoints[1..], outcomes[1..], handler);
      assert [endpoints[0]] + endpoints[1..] == endpoints;
    }
  }

  /** A connect that resolved ends connected exactly when some attempt
      succeeds, and it makes a report exactly when it does not. */
  lemma {:induction false} FailoverConnectedIff(endpoints: seq<Endpoint>, outcomes: seq<ErrorCode>, handler: Option<HandlerRef>)
    requires |endpoints| > 0 && |outcomes| == |endpoints|
    ensures var r := Failover(endpoints, outcomes, handler);
      (r.connected <==> exists j :: 0 <= j < |outcomes| && outcomes[j] == Success) &&
      (r.report == NoReport <==> r.connected)
  {
    if k :| 0 <= k < |outcomes| && outcomes[k] == Success {
      var first := FirstSuccess(outcomes, 0, k);
      FailoverFirstSuccess(endpoints, outcomes, handler, first);
    } else {
      FailoverExhausted(endpoints, outcomes, handler);
    }
  }

  /** The smallest index `i >= from` of a successful outcome, given that
      none before `from` succeeded and that the one at `k` did. */
  function FirstSuccess(outcomes: seq<ErrorCode>, from: nat, k: nat): (i: nat)
    requires from <= k < |outcomes| && outcomes[k] == Success
    requires forall j :: 0 <= j < from ==> outcomes[j] != Success
    ensures from <= i <= k && outcomes[i] == Success
    ensures forall j :: 0 <= j < i ==> outcomes[j] != Success
    decreases k - from
  {
    if outcomes[from] == Success then from else FirstSuccess(outcomes, from + 1, k)
  }
}
