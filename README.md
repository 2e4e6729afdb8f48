# Kafka producer connection state machine

A Dafny model of the connection manager of the kafka-cpp `producer`
(`src/lib/kafka/producer.cpp`). The producer turns a host name and a service
(or port) into a TCP connection. It tries every endpoint the name resolves to,
one after the other, until one accepts. It reports connect errors and
write-completion errors to optional callbacks, or throws when there is no
callback.

- `types.dfy` (`KafkaTypes`): error codes, where 0 means success (boost's
  `!error_code`). Also endpoints, handler and message references, the three
  ways a connect error can be reported (`NoReport`, `HandlerCalled`, `Thrown`),
  the write reports, and `ReportError`, the producer's one reporting rule.
- `decimal.dfy` (`Decimal`): the decimal rendering of a port number, which the
  port overload of `connect` passes on as a service name.
- `failover.dfy` (`ConnectFailover`): `Failover`, a function giving everything
  a resolved `connect` leads to. That is the endpoints attempted, whether the
  producer ends connected, and the report made. The function follows the
  `handle_resolve` → `handle_connect` → `handle_resolve` recursion. Lemmas about
  it state the attempt order, that the first success wins, and what happens on
  exhaustion.
- `producer.dfy` (`KafkaProducer.Producer`): a class with the two flags
  `connecting` and `connected`, and a `socketGeneration` that stands for the
  socket handle `close` replaces. Its methods are the constructor, both
  `connect` overloads, `close`, the two observers and the three completion
  handlers. Ghost fields record every resolution started, every endpoint
  attempted, and every liveness read armed.
- `reactor.dfy` (`Reactor`): the io_service for one `connect` call.
  `RunConnect` calls `Connect`, then delivers the resolution and each connect
  completion in turn, taking outcomes from an oracle. Its postcondition ties
  the producer's final state to `Failover`.

Two things are sometimes said of this producer that its code does not do.
First, `connecting` and `connected` can both be true. `connect` on a connected
producer sets `connecting` and leaves `connected` alone (producer.cpp:56-57).
Second, when every endpoint fails, `connected` keeps whatever value it had; it
is not reset to false (producer.cpp:154-163). The model follows the code: no
member claims the flags exclude each other, and `RunConnect` states
`connected == (f.connected || old(connected))`.

## Model

| member | source | states |
|---|---|---|
| `KafkaProducer.Producer.constructor` | src/lib/kafka/producer.cpp:30-38 | a new producer is neither connecting nor connected, has its first socket, and has started no resolution and no attempt |
| `KafkaProducer.Producer.Connect` | src/lib/kafka/producer.cpp:52-72 | while connecting: returns false, changes nothing and starts no resolution; otherwise sets `connecting`, leaves `connected` and the socket alone, starts exactly one resolution of (host, service) bound to the handler, and returns true |
| `KafkaProducer.Producer.ConnectPort` | src/lib/kafka/producer.cpp:45-50 | behaves exactly as `Connect` given the port's decimal rendering as the service |
| `KafkaProducer.Producer.Close` | src/lib/kafka/producer.cpp:74-83 | while connecting: returns false and changes nothing; otherwise clears `connected`, replaces the socket with a new one and returns true, even when already closed |
| `KafkaProducer.Producer.IsConnected` | src/lib/kafka/producer.cpp:85-88 | returns the `connected` flag and changes nothing |
| `KafkaProducer.Producer.IsConnecting` | src/lib/kafka/producer.cpp:90-93 | returns the `connecting` flag and changes nothing |
| `KafkaProducer.Producer.HandleResolve` | src/lib/kafka/producer.cpp:95-123 | on success, attempts the first resolved endpoint and carries the rest with the attempt, changing no flag; on error, clears `connecting`, leaves `connected` alone, attempts nothing, and reports the error once, to the handler or as a throw |
| `KafkaProducer.Producer.HandleConnect` | src/lib/kafka/producer.cpp:125-164 | success clears `connecting`, sets `connected`, arms one liveness read and reports nothing; failure with endpoints left attempts the next one and changes no flag; failure on the last endpoint clears `connecting`, leaves `connected` alone and reports that error once |
| `KafkaProducer.Producer.HandleWriteRequest` | src/lib/kafka/producer.cpp:166-183 | no error: no report; an error: exactly one report carrying the error, to the handler together with the original message when there is a handler, as a throw otherwise; the producer's state is untouched |
| `KafkaTypes.ReportError` | src/lib/kafka/producer.cpp:116-121 | a connect error is always reported, with the same error; it goes to the handler exactly when one was given, and is thrown otherwise |
| `Decimal.DecimalString` | src/lib/kafka/producer.cpp:49 | a port renders as a non-empty string of decimal digits with no leading zero |
| `Decimal.DecimalRoundTrip` | src/lib/kafka/producer.cpp:49 | reading the rendered digits back gives the port number |
| `Decimal.DecimalStringInjective` | src/lib/kafka/producer.cpp:49 | distinct ports give distinct service names |
| `ConnectFailover.FailoverAttemptsInOrder` | src/lib/kafka/producer.cpp:99-112 | the endpoints attempted are a non-empty prefix of the resolver's list, in its order, none skipped or repeated, and every attempt before the last one failed |
| `ConnectFailover.FailoverFirstSuccess` | src/lib/kafka/producer.cpp:130-135 | if attempt k is the first to succeed, exactly endpoints 0..k are attempted, the producer ends connected, and nothing is reported |
| `ConnectFailover.FailoverExhausted` | src/lib/kafka/producer.cpp:147-163 | if every attempt fails, every endpoint is attempted, the producer is not connected by this call, and only the last endpoint's error is reported, once, to the handler or as a throw |
| `ConnectFailover.FailoverConnectedIff` | src/lib/kafka/producer.cpp:125-163 | a resolved connect ends connected if and only if some attempt succeeds, and reports an error if and only if it does not end connected |
| `Reactor.RunConnect` | src/lib/kafka/producer.cpp:52-164 | one `connect` with all its completions: refused while connecting; after a resolution error, clears `connecting` and reports once; otherwise the producer's attempts, flags, liveness reads and report are exactly those `Failover` gives, and `connecting` ends false |

## Left out

- The Boost.Asio resolver, socket, `io_service`, the `async_*` calls and `boost::bind` are not modelled. The completions are methods the environment calls. Outcomes come from an oracle (`Reactor.RunConnect`'s `resolveError`, `endpoints` and `outcomes`).
- An error code is its integer value only. Its category is not modelled.
- A thrown `boost::system::system_error` is the report value `Thrown(err)`. Unwinding through the io_service is not modelled. The state changes made before the throw are kept, as in the code.
- Handlers are references only. What a handler does when called is not modelled, including a handler that calls back into the producer.
- The liveness read armed after a successful connect is only counted (`livenessReads`). Its buffer and its handler `handle_dummy_read` are not part of this model.
- The write buffer (`shared_ptr<streambuf>`) and `bytes_transferred` play no part in the outcome and are left out.
- The `_compression` field is only stored and never read in this file, so it is left out.
- The destructor only calls `close` and ignores the result, so it is left out.
- `boost::lexical_cast<std::string>(uint16_t)` is modelled as plain decimal rendering (`Decimal.DecimalString`).
