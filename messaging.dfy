/**
 * The messaging context built by `Module` (packages/kpr-core/src/libs/amqp.js:25-81)
 * and the `publish` half of the pair that `assertQueue` returns.
 *
 * The context's one piece of mutable state is `connectionChannel`, declared
 * undefined (amqp.js:29), overwritten by every `connection()` (amqp.js:34)
 * and read by every `publish` when it runs (amqp.js:76), not when the pair
 * was made. Publishing therefore goes to the channel of the most recent
 * `connection()`, whatever channel was given to `assertQueue`.
 *
 * `connection()` as written awaits `amqpReady(conf, new Date())`, which is the
 * unstarted retry thunk rather than a connection, so `amqpConn.createChannel`
 * is undefined and calling it throws a TypeError before the assignment at
 * amqp.js:34: as written, `connectionChannel` is never set. The model does
 * not compose the two: `Connection` describes the store at amqp.js:34 as if
 * it were reached, taking the created channel as a parameter.
 */
module Messaging {
  import opened AmqpTypes
  import opened Consumer

  /** The recorded `Buffer.from(text, encoding)` call that makes a payload. */
  datatype Payload = BufferFrom(text: string, encoding: Option<Options>)

  /** The recorded `channel.publish(exchange, routingKey, content, options)` call. */
  datatype PublishCall = PublishCall(
    channel: Channel,
    exchange: string,
    routingKey: string,
    payload: Payload,
    publishOptions: Option<Options>)

  /** `connectionChannel` is still undefined, so `connectionChannel.publish` throws a TypeError. */
  datatype PublishError = NoConnectionChannel

  /**
   * The publish call as written: exchange defaults to '', the routing key is
   * the queue name, the payload is the serialised message, and `options`
   * lands in `Buffer.from` (as its encoding argument) instead of in
   * `publish`, which gets no options at all.
   */
  function BuildPublish(ch: Channel, name: string, exchange: Option<string>, message: Json,
                        options: Option<Options>, serialize: Json -> string): (call: PublishCall)
    ensures call.channel == ch && call.routingKey == name
    ensures call.exchange == (if exchange.Some? then exchange.value else "")
    ensures call.payload.text == serialize(message) && call.payload.encoding == options
    ensures call.publishOptions.None?
  {
    PublishCall(ch, exchange.GetOr(""), name, BufferFrom(serialize(message), options), None)
  }

  /** As written, options given to publish never reach the broker's publish call. */
  lemma OptionsNotForwarded(ch: Channel, name: string, exchange: Option<string>, message: Json,
                            o: Options, serialize: Json -> string)
    ensures BuildPublish(ch, name, exchange, message, Some(o), serialize).publishOptions != Some(o)
    ensures BuildPublish(ch, name, exchange, message, Some(o), serialize).payload != BufferFrom(serialize(message), None)
  {
  }

  /** The publish call as evidently meant: options go to `publish`, the payload is plain. */
  function BuildPublishIntended(ch: Channel, name: string, exchange: Option<string>, message: Json,
                                options: Option<Options>, serialize: Json -> string): (call: PublishCall)
    ensures call.channel == ch && call.routingKey == name
    ensures call.exchange == (if exchange.Some? then exchange.value else "")
    ensures call.payload == BufferFrom(serialize(message), None)
    ensures call.publishOptions == options
  {
    PublishCall(ch, exchange.GetOr(""), name, BufferFrom(serialize(message), None), options)
  }

  /** The corrected call differs from the written one only in where the options go. */
  lemma IntendedMovesOnlyOptions(ch: Channel, name: string, exchange: Option<string>, message: Json,
                                 options: Option<Options>, serialize: Json -> string)
    ensures var w := BuildPublish(ch, name, exchange, message, options, serialize);
      BuildPublishIntended(ch, name, exchange, message, options, serialize)
        == w.(payload := BufferFrom(w.payload.text, None), publishOptions := options)
    ensures options.None? ==>
      BuildPublishIntended(ch, name, exchange, message, options, serialize)
        == BuildPublish(ch, name, exchange, message, options, serialize)
  {
  }

  class Context {
    /** The channel stored by the latest `connection()`; None while still undefined. */
    var connectionChannel: Option<Channel>

    constructor ()
      ensures connectionChannel.None?
    {
      connectionChannel := None;
    }

    /** `connection()`, reduced to what it does to the context: it stores the newly created channel. */
    method Connection(ch: Channel)
      modifies this
      ensures connectionChannel == Some(ch)
    {
      connectionChannel := Some(ch);
    }

    /**
     * `publish` of the pair bound to `b`: it throws while no channel is stored,
     * and otherwise publishes on the stored channel, never on `b.channel`.
     */
    function Publish(b: Binding, exchange: Option<string>, message: Json,
                     options: Option<Options>, serialize: Json -> string): (r: Result<PublishCall, PublishError>)
      reads this
      ensures r.Failure? <==> connectionChannel.None?
      ensures r.Success? ==> r.value.channel == connectionChannel.value && r.value.routingKey == b.name
      ensures r.Success? ==> r.value == BuildPublish(connectionChannel.value, b.name, exchange, message, options, serialize)
    {
      match connectionChannel
      case None => Failure(NoConnectionChannel)
      case Some(ch) => Success(BuildPublish(ch, b.name, exchange, message, options, serialize))
    }
  }

  /** Which channel a publish uses does not depend on the channel its queue was asserted on. */
  lemma PublishIgnoresBindingChannel(ctx: Context, c1: Channel, c2: Channel, name: string,
                                     exchange: Option<string>, message: Json,
                                     options: Option<Options>, serialize: Json -> string)
    ensures ctx.Publish(Binding(c1, name), exchange, message, options, serialize)
         == ctx.Publish(Binding(c2, name), exchange, message, options, serialize)
  {
  }

  /**
   * A pair obtained before a later `connection()` publishes on the later
   * channel: the binding captures the queue name, not the channel.
   */
  method PublishAfterReconnect(ctx: Context, b: Binding, first: Channel, second: Channel,
                               message: Json, serialize: Json -> string)
    returns (r: Result<PublishCall, PublishError>)
    modifies ctx
    ensures ctx.connectionChannel == Some(second)
    ensures r == Success(PublishCall(second, "", b.name, BufferFrom(serialize(message), None), None))
  {
    ctx.Connection(first);
    ctx.Connection(second);
    r := ctx.Publish(b, None, message, None, serialize);
  }
}
