/** Values exchanged between the producer, its callers and the reactor that
    delivers asynchronous completions. */
module KafkaTypes {

  /** A TCP port number: the `uint16_t` of the port overload of `connect`. */
  newtype uint16 = x: int | 0 <= x < 0x1_0000

  /** A boost::system::error_code reduced to its value: 0 means success
      (`!error_code` holds), anything else is an error. */
  type ErrorCode = int

  const Success: ErrorCode := 0

  datatype Option<+T> = None | Some(value: T)

  /** Identity of a caller-supplied callback; `None` stands for an empty
      boost::function. */
  type HandlerRef = nat

  /** Identity of the message a write carries (the `message_ptr_t`). */
  type MessageRef = nat

  /** One resolved network address. */
  datatype Endpoint = Endpoint(address: string, port: uint16)

  /** A resolution handed to the resolver by `connect`, with the connect-error
      handler bound into its completion. */
  datatype Query = Query(host: string, service: string, handler: Option<HandlerRef>)

  /** How a connect-time error reaches the outside world: not at all, through
      the handler, or as an exception thrown out of the completion. */
  datatype Report =
    | NoReport
    | HandlerCalled(handler: HandlerRef, error: ErrorCode)
    | Thrown(error: ErrorCode)

  /** How a write-completion error reaches the outside world. */
  datatype WriteReport =
    | NoWriteReport
    | WriteHandlerCalled(handler: HandlerRef, error: ErrorCode, msg: MessageRef)
    | WriteThrown(error: ErrorCode)

  /** What a resolve or connect completion leaves behind: either a connect
      attempt on `endpoint` whose completion will carry `rest` (the advanced
      endpoint iterator), or nothing further, with the report it made. */
  datatype Step =
    | Attempt(endpoint: Endpoint, rest: seq<Endpoint>)
    | Done(report: Report)

  /** The producer's one way of surfacing a connect error: call the handler if
      there is one, otherwise throw. */
  function ReportError(err: ErrorCode, handler: Option<HandlerRef>): (r: Report)
    ensures r != NoReport && r.error == err
    ensures r.HandlerCalled? <==> handler.Some?
    ensures r.HandlerCalled? ==> r.handler == handler.value
  {
    match handler
    case Some(h) => HandlerCalled(h, err)
    case None => Thrown(err)
  }
}
