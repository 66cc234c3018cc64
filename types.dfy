/**
 * Values shared by the models of the AMQP wrapper in
 * packages/kpr-core/src/libs/amqp.js: the broker's opaque handles, the
 * JSON documents carried by messages, and the deliveries pushed by the broker.
 */
module AmqpTypes {

  /** JavaScript's `undefined` versus a present value. */
  datatype Option<+T> = None | Some(value: T) {
    function GetOr(default: T): T {
      match this
      case Some(v) => v
      case None => default
    }
  }

  /** A normal return or a thrown error. */
  datatype Result<+R, +E> = Success(value: R) | Failure(error: E)

  newtype byte = x: int | 0 <= x < 256

  /** An opaque handle on a live broker connection, as `amqp.connect` resolves it. */
  datatype Connection = Connection(id: nat)

  /** An opaque handle on a channel, as `createChannel` resolves it. */
  datatype Channel = Channel(id: nat)

  /** A JSON document, as `JSON.parse` produces and `JSON.stringify` consumes. */
  datatype Json =
    | JNull
    | JBool(b: bool)
    | JNumber(n: int)
    | JString(s: string)
    | JArray(items: seq<Json>)
    | JObject(members: seq<(string, Json)>)

  /** The `fields` record of a delivery; only `redelivered` is looked at. */
  datatype Fields = Fields(redelivered: bool)

  /** A raw delivery: its body bytes and its (possibly missing) `fields`. */
  datatype Delivery = Delivery(content: seq<byte>, fields: Option<Fields>)

  /** Caller-supplied options; their meaning belongs to the broker client. */
  datatype Options = Options(entries: seq<(string, string)>)
}
