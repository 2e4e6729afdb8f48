/** The producer's connection state machine: two flags and a socket handle,
    driven by `connect`, `close` and the resolve and connect completions. */
module KafkaProducer {
  import opened KafkaTypes
  import Decimal

  class Producer {
    var connecting: bool
    var connected: bool
    /** Stands for the socket handle: `close` replaces the socket, which is
        a new generation. */
    var socketGeneration: nat

    /** Every resolution `connect` has started, oldest first. */
    ghost var resolveRequests: seq<Query>
    /** Every endpoint a connect attempt was started on, oldest first. */
    ghost var attempted: seq<Endpoint>
    /** How many liveness reads a successful connect has armed. */
    ghost var livenessReads: nat

    constructor ()
      ensures !connecting && !connected && socketGeneration == 0
      ensures resolveRequests == [] && attempted == [] && livenessReads == 0
    {
      connecting := false;
      connected := false;
      socketGeneration := 0;
      resolveRequests := [];
      attempted := [];
      livenessReads := 0;
    }

    /** Starts resolving `host`/`service`, unless a connect is already in
        progress, in which case the request is refused and nothing changes. */
    method Connect(host: string, service: string, handler: Option<HandlerRef>) returns (ok: bool)
      modifies this
      ensures ok == !old(connecting)
      ensures connecting
      ensures connected == old(connected) && socketGeneration == old(socketGeneration)
      ensures attempted == old(attempted) && livenessReads == old(livenessReads)
      ensures resolveRequests == if ok then old(resolveRequests) + [Query(host, service, handler)]
                                       else old(resolveRequests)
    {
      if connecting {
        return false;
      }
      connecting := true;
      resolveRequests := resolveRequests + [Query(host, service, handler)];
      return true;
    }

    /** The port overload: exactly the service overload applied to the
        port's decimal rendering. */
    method ConnectPort(host: string, port: uint16, handler: Option<HandlerRef>) returns (ok: bool)
      modifies this
      ensures ok == !old(connecting)
      ensures connecting
      ensures connected == old(connected) && socketGeneration == old(socketGeneration)
      ensures attempted == old(attempted) && livenessReads == old(livenessReads)
      ensures resolveRequests == if ok then old(resolveRequests) + [Query(host, Decimal.DecimalString(port as nat), handler)]
                                       else old(resolveRequests)
    {
      ok := Connect(host, Decimal.DecimalString(port as nat), handler);
    }

    /** Drops the connection and replaces the socket with a fresh one, unless
        a connect is in progress, in which case nothing changes. Closing an
        already closed producer succeeds. */
    method Close() returns (ok: bool)
      modifies this
      ensures ok == !old(connecting)
      ensures connecting == old(connecting)
      ensures ok ==> !connected && socketGeneration == old(socketGeneration) + 1
      ensures !ok ==> connected == old(connected) && socketGeneration == old(socketGeneration)
      ensures resolveRequests == old(resolveRequests) && attempted == old(attempted)
      ensures livenessReads == old(livenessReads)
    {
      if connecting {
        return false;
      }
      connected := false;
      socketGeneration := socketGeneration + 1;
      return true;
    }

    method IsConnected() returns (b: bool)
      ensures b == connected
    {
      b := connected;
    }

    method IsConnecting() returns (b: bool)
      ensures b == connecting
    {
      b := connecting;
    }

    /** Completion of a resolution. On success the resolver yields at least
        one endpoint; the first is attempted and the rest travel with the
        attempt. On error, the connect is over and the error is reported. */
    method HandleResolve(err: ErrorCode, endpoints: seq<Endpoint>, handler: Option<HandlerRef>) returns (step: Step)
      requires err == Success ==> |endpoints| > 0
      modifies this
      ensures err == Success ==>
        step == Attempt(endpoints[0], endpoints[1..]) &&
        attempted == old(attempted) + [endpoints[0]] &&
        connecting == old(connecting)
      ensures err != Success ==>
        step == Done(ReportError(err, handler)) &&
        attempted == old(attempted) &&
        !connecting
      ensures connected == old(connected) && socketGeneration == old(socketGeneration)
      ensures resolveRequests == old(resolveRequests) && livenessReads == old(livenessReads)
    {
      if err == Success {
        attempted := attempted + [endpoints[0]];
        step := Attempt(endpoints[0], endpoints[1..]);
      } else {
        connecting := false;
        step := Done(ReportError(err, handler));
      }
    }

    /** Completion of a connect attempt; `rest` is what remains of the
        endpoints after the one attempted. Success connects and arms the
        liveness read; a failure with endpoints left goes back to
        `HandleResolve` as if resolution had just succeeded with `rest`; a
        failure on the last endpoint ends the connect and reports its error. */
    method HandleConnect(err: ErrorCode, rest: seq<Endpoint>, handler: Option<HandlerRef>) returns (step: Step)
      modifies this
      ensures err == Success ==>
        step == Done(NoReport) &&
        !connecting && connected &&
        attempted == old(attempted) && livenessReads == old(livenessReads) + 1
      ensures err != Success && |rest| > 0 ==>
        step == Attempt(rest[0], rest[1..]) &&
        connecting == old(connecting) && connected == old(connected) &&
        attempted == old(attempted) + [rest[0]] && livenessReads == old(livenessReads)
      ensures err != Success && rest == [] ==>
        step == Done(ReportError(err, handler)) &&
        !connecting && connected == old(connected) &&
        attempted == old(attempted) && livenessReads == old(livenessReads)
      ensures socketGeneration == old(socketGeneration) && resolveRequests == old(resolveRequests)
    {
      if err == Success {
        connecting := false;
        connected := true;
        livenessReads := livenessReads + 1;
        step := Done(NoReport);
      } else if rest != [] {
        step := HandleResolve(Success, rest, handler);
      } else {
        connecting := false;
        step := Done(ReportError(err, handler));
      }
    }

    /** Completion of a write of message `msg`: an error is reported once,
        with the message, to the handler or as a throw; success reports
        nothing. The producer's state is not touched. */
    method HandleWriteRequest(err: ErrorCode, msg: MessageRef, handler: Option<HandlerRef>) returns (r: WriteReport)
      ensures r == NoWriteReport <==> err == Success
      ensures r.WriteHandlerCalled? <==> err != Success && handler.Some?
      ensures r.WriteHandlerCalled? ==> r.handler == handler.value && r.error == err && r.msg == msg
      ensures r.WriteThrown? ==> r.error == err
    {
      if err != Success {
        match handler
        case None =>
          r := WriteThrown(err);
        case Some(h) =>
          r := WriteHandlerCalled(h, err, msg);
      } else {
        r := NoWriteReport;
      }
    }
  }
}
