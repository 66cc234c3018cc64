# AMQP messaging wrapper, modelled in Dafny

A model of the decision logic of `packages/kpr-core/src/libs/amqp.js`. This file
is a thin layer over the `amqplib` broker client and does three things:

- **Connection readiness** (`amqpReady`). It calls `amqp.connect(url, { heartbeat })`
  again and again. It returns the first connection it gets. After a failed attempt
  it throws `Error('AMQP Server not availables')` once `now - start >= timeout`.
  Otherwise it retries at once.
- **Delivery handling**. This is what `consume` registers with `channel.consume`.
  It parses each delivery as JSON. A message that fails to parse is acked on the
  bound channel if the broker flags it as redelivered (a poison message), and
  nacked otherwise. The callback is then called.
- **Publishing**. `publish` sends the serialised message to an exchange (default
  `''`), using the asserted queue's name as the routing key. It publishes on the
  channel that the messaging context's latest `connection()` stored.

The model has four modules:

- `AmqpTypes` (`types.dfy`) holds the shared values: handles, JSON documents,
  deliveries and options.
- `Readiness` (`readiness.dfy`) holds the retry loop. It is a `while` method over
  a finite script of attempt records. Each record holds what `connect` gave and
  what the clock read afterwards. The method is proved against the specification
  function `FirstStop`, and lemmas characterise each outcome.
- `Consumer` (`consumer.dfy`) holds the handler. It is a function from a
  delivery to the sequence of effects it issues: `Ack`, `Nack`, `Callback`.
- `Messaging` (`messaging.dfy`) holds the class `Context`. Its one field,
  `connectionChannel`, is written by `Connection` and read by `Publish`. The pure
  construction of the publish call is the function `BuildPublish`.

Three things come from the caller as parameters: the broker's behaviour, the
clock, and the functions `parse` (`JSON.parse` of the decoded content) and
`serialize` (`JSON.stringify`).

In two places the code does not do what it is evidently meant to do. The
model follows the code in both, and states the corrected behaviour beside it
(see "## Findings"):

1. On a parse failure, the catch block does not return. The handler therefore
   still calls `callback(undefined)` after the ack or nack. The callback is
   evidently meant never to see a parse failure, since that failure has
   already been settled by the ack or nack.
2. `publish` passes its `options` to `Buffer.from` rather than to
   `channel.publish`. The options are evidently meant for the publish call,
   since `Buffer.from` takes an encoding there.

One behaviour of the retry loop is easy to miss. Success is checked before the
clock is read, so a connection that arrives after the deadline is still
returned (`Readiness.SuccessIgnoresClock`).

## Model

| member | source | states |
|---|---|---|
| `Readiness.FirstStop` | packages/kpr-core/src/libs/amqp.js:16-22 | the index where the loop leaves is the first attempt that either connected or failed at or past the deadline; every earlier attempt failed before the deadline |
| `Readiness.AmqpReady` | packages/kpr-core/src/libs/amqp.js:13-23 | the loop's verdict and its number of `connect` calls are those fixed by the first stopping attempt; every call uses the configured url and heartbeat |
| `Readiness.ConnectedIff` | packages/kpr-core/src/libs/amqp.js:16-20 | the loop returns connection c after exactly n+1 attempts if and only if attempt n+1 gave c and all earlier attempts failed in time; no attempt is made after the successful one |
| `Readiness.FailedIff` | packages/kpr-core/src/libs/amqp.js:17-21 | the loop throws after exactly n+1 attempts if and only if attempt n+1 failed with `now - start >= timeout` and all earlier attempts failed in time; the error message is always "AMQP Server not availables" |
| `Readiness.ExhaustedIff` | packages/kpr-core/src/libs/amqp.js:16-22 | the loop keeps retrying past the whole script if and only if every attempt failed before the deadline; a failure that is not late is retried without surfacing an error |
| `Readiness.FirstAttemptAlwaysMade` | packages/kpr-core/src/libs/amqp.js:16-21 | on a non-empty script at least one attempt is always made; when also `timeout <= 0` and the clock reading after the first attempt is not below `start`, the first attempt alone decides between a connection and the error |
| `Readiness.SuccessIgnoresClock` | packages/kpr-core/src/libs/amqp.js:20-21 | changing the clock reading after a successful attempt changes neither the result nor the attempt count: success is checked before the deadline |
| `Readiness.SameStopsSameFirstStop` | packages/kpr-core/src/libs/amqp.js:16-22 | two scripts whose attempts agree on outcome and on whether they stop the loop end in the same way |
| `Readiness.LaterAttemptsIrrelevant` | packages/kpr-core/src/libs/amqp.js:18-21 | attempts after the stopping one are never consulted: replacing them changes neither the outcome nor the number of `connect` calls |
| `Readiness.ExhaustedContinues` | packages/kpr-core/src/libs/amqp.js:16-22 | when every scripted attempt failed in time, further attempts continue the same loop, and their `connect` calls add to the count |
| `Readiness.RefusedFor600ms` | packages/kpr-core/src/libs/amqp.js:21 | with a 500 ms timeout and a broker that refuses for 600 ms (clock read every 100 ms), the fifth attempt throws the not-available error |
| `Consumer.HandleDelivery` | packages/kpr-core/src/libs/amqp.js:48-71 | as written: the callback is called exactly once, as the last effect, with the parse result; a failed parse is acked exactly once if redelivered and nacked exactly once otherwise (missing `fields` counts as not redelivered), both on the bound channel for that delivery; a parsed message gets no ack or nack |
| `Consumer.SettledAtMostOnce` | packages/kpr-core/src/libs/amqp.js:50-67 | a delivery is never both acked and nacked; the wrapper settles it exactly when it fails to parse |
| `Consumer.ParseFailureReachesCallback` | packages/kpr-core/src/libs/amqp.js:52-70 | as written, a delivery that fails to parse yields its ack or nack followed by `callback(undefined)` |
| `Consumer.HandleDeliveryIntended` | packages/kpr-core/src/libs/amqp.js:48-71 | corrected: the callback is called exactly when the parse succeeds, and then with exactly the parsed document; a failure is settled exactly once on the bound channel for that delivery, by ack if and only if redelivered and by nack if and only if not |
| `Consumer.IntendedDropsOnlyUndefinedCallback` | packages/kpr-core/src/libs/amqp.js:68-70 | the corrected handler equals the written one, except that the trailing `callback(undefined)` after a parse failure is dropped |
| `Messaging.BuildPublish` | packages/kpr-core/src/libs/amqp.js:73-76 | as written: publish on the given channel, to `exchange` (default `''`), with the queue name as routing key and the serialised message as payload text; `options` go to `Buffer.from` and the publish call gets none |
| `Messaging.OptionsNotForwarded` | packages/kpr-core/src/libs/amqp.js:76 | as written, given options never reach `channel.publish` and they alter the `Buffer.from` call |
| `Messaging.BuildPublishIntended` | packages/kpr-core/src/libs/amqp.js:76 | corrected: the same target, exchange and routing key, a plain `Buffer.from` of the serialised message, and the options passed to `channel.publish` |
| `Messaging.IntendedMovesOnlyOptions` | packages/kpr-core/src/libs/amqp.js:76 | the corrected call differs from the written one only in where the options go; without options the two agree |
| `Messaging.Context.constructor` | packages/kpr-core/src/libs/amqp.js:29 | a new context has no stored channel |
| `Messaging.Context.Connection` | packages/kpr-core/src/libs/amqp.js:32-34 | the store at line 34, described as if it were reached: `connection()` overwrites the stored channel with the newly created one (as written, line 33 hands it the unstarted retry thunk, so line 34 throws before storing; see "## Left out") |
| `Messaging.Context.Publish` | packages/kpr-core/src/libs/amqp.js:73-77 | publish fails (TypeError) exactly while no channel is stored; otherwise it publishes on the stored channel, with the bound queue's name as routing key |
| `Messaging.PublishIgnoresBindingChannel` | packages/kpr-core/src/libs/amqp.js:76 | the channel given to `assertQueue` has no influence on publishing |
| `Messaging.PublishAfterReconnect` | packages/kpr-core/src/libs/amqp.js:32-76 | assuming the store at line 34 is reached: after two `connection()` calls, a publish on a pair bound earlier goes to the second channel, to exchange `''`, with the queue name as key |

## Findings

| source | as written | input that shows it | evidently intended | confidence | as-written member | corrected member |
|---|---|---|---|---|---|---|
| packages/kpr-core/src/libs/amqp.js:52-70 | the catch block has no `return`, so after the ack or nack the handler goes on to `callback(messageParsed)` with `messageParsed` undefined | a delivery with content `not-json`, whatever its `fields.redelivered` | the callback is not called for a delivery that fails to parse | medium, not executed | `Consumer.ParseFailureReachesCallback` | `Consumer.HandleDeliveryIntended` |
| packages/kpr-core/src/libs/amqp.js:76 | `Buffer.from(JSON.stringify(message), options)`, so `options` become the encoding argument of `Buffer.from` and `channel.publish` gets no options | any publish with publish options, such as `{ persistent: true }` | `channel.publish(exchange, name, Buffer.from(JSON.stringify(message)), options)` | medium, not executed | `Messaging.OptionsNotForwarded` | `Messaging.BuildPublishIntended` |

The rest of the model follows the code as written: `Context.Publish` builds the
call with `BuildPublish`, and `HandleDelivery` is the handler that `consume`
registers. The corrected members are stated and proved next to them.

## Left out

- The `amqplib` calls themselves (`connect`, `createChannel`, `assertQueue`,
  `consume`, `ack`, `nack`, `close`). They belong to a foreign network client.
  The model shows them only as scripted outcomes or recorded effects.
- The broker-side effect of `assertQueue(name, opts.queue)`, including its
  idempotence. This belongs to the broker. A queue binding is a channel plus a
  queue name (`Consumer.Binding`).
- Registering the handler with `channel.consume(name, handler, options)`. The
  `options` are passed through verbatim and mean something only to the broker
  client.
- Logging at every level. The logging module is not part of this model, and
  logging does not affect control flow.
- The `SIGINT` hook that closes the channel and the connection. This is process
  signal handling.
- The promise construction of `Module` and the `connection()` composition. As
  written, `connection()` awaits the unstarted thunk returned by `amqpReady`
  rather than a connection. `amqpConn.createChannel` is then undefined, so
  line 34 throws a TypeError before the assignment. As written,
  `connectionChannel` is therefore never set, and every `publish` throws.
  `Context.Connection` and `PublishAfterReconnect` describe the store at
  line 34 as if it were reached. They take the created channel as a parameter
  and do not run the retry loop.
- Consumer.HandleDelivery: does not model the `null` delivery that the broker
  client passes to the handler when the broker cancels the consumer. On that
  input, line 51 throws inside the `try` and is caught. Line 53 then reads
  `message.fields` of `null`, which throws out of the `catch`. The handler
  therefore throws with no ack, no nack and no callback. `Delivery` is never
  null in the model, so the contract promises a callback on every delivery
  that the model admits.
- Messaging.Context.Publish: does not model a message that `JSON.stringify`
  maps to `undefined` (an undefined message, a function or a Symbol, as in
  `publish({ exchange: 'x' })`). For such a message, `Buffer.from(undefined, options)`
  at line 76 throws a TypeError before `channel.publish` is reached. Messages
  are `Json` documents and `serialize` is total, so `Publish` succeeds whenever
  a channel is stored.
- `JSON.parse`, `JSON.stringify`, `Buffer` and UTF-8 decoding. They are library
  behaviour and are passed in as uninterpreted functions. `JSON.stringify`
  throwing (on cyclic values, for example) is not modelled. JSON numbers are
  integers.
- Readiness.AmqpReady: does not model an endless run. The script of attempts
  is finite, so `ScriptExhausted` stands for "still retrying". It also does not
  model a missing or non-numeric `timeout`. The timeout is an integer number of
  milliseconds, and a missing one would make the JavaScript comparison always
  false.
- The wall clock. It is replaced by the scripted reading taken after each
  failed attempt.
- Concurrency and asynchrony. Awaits, interleaving of deliveries and the
  promise returned by the callback are not modelled.
