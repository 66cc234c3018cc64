/**
 * The delivery handler that `consume` registers with `channel.consume`
 * (packages/kpr-core/src/libs/amqp.js:48-71).
 *
 * `JSON.parse(message.content.toString())` is the parameter `parse`: None
 * stands for a throw, Some(v) for the parsed document. The handler's
 * observable behaviour is the sequence of effects it issues, in order.
 */
module Consumer {
  import opened AmqpTypes

  /** The queue a `{consume, publish}` pair is bound to, and the channel given to `assertQueue`. */
  datatype Binding = Binding(channel: Channel, name: string)

  datatype Effect =
    | Ack(channel: Channel, message: Delivery)
    | Nack(channel: Channel, message: Delivery)
    | Callback(arg: Option<Json>)  // None: the callback receives undefined

  /** `message.fields && message.fields.redelivered` is truthy. */
  predicate Redelivered(d: Delivery) {
    d.fields.Some? && d.fields.value.redelivered
  }

  function Acks(effects: seq<Effect>): nat {
    if effects == [] then 0 else (if effects[0].Ack? then 1 else 0) + Acks(effects[1..])
  }

  function Nacks(effects: seq<Effect>): nat {
    if effects == [] then 0 else (if effects[0].Nack? then 1 else 0) + Nacks(effects[1..])
  }

  function Callbacks(effects: seq<Effect>): nat {
    if effects == [] then 0 else (if effects[0].Callback? then 1 else 0) + Callbacks(effects[1..])
  }

  /** Each count of a concatenated trace is the sum of the counts of its parts. */
  lemma {:induction false} CountsOfConcat(s: seq<Effect>, t: seq<Effect>)
    ensures Acks(s + t) == Acks(s) + Acks(t)
    ensures Nacks(s + t) == Nacks(s) + Nacks(t)
    ensures Callbacks(s + t) == Callbacks(s) + Callbacks(t)
  {
    if s == [] {
      assert s + t == t;
    } else {
      assert (s + t)[1..] == s[1..] + t;
      CountsOfConcat(s[1..], t);
    }
  }

  /** The ack or nack a failed parse draws: ack a redelivered (poison) message, nack a first delivery. */
  function Settle(b: Binding, d: Delivery): Effect {
    if Redelivered(d) then Ack(b.channel, d) else Nack(b.channel, d)
  }

  /**
   * The handler as written. A parse failure is settled on the bound channel
   * (ack when redelivered, nack otherwise), and then, since the catch block
   * does not return, control falls through to `callback(messageParsed)`
   * with `messageParsed` still undefined. A parsed document goes to the
   * callback with no ack or nack from the wrapper.
   */
  function HandleDelivery(b: Binding, parse: seq<byte> -> Option<Json>, d: Delivery): (effects: seq<Effect>)
    ensures |effects| >= 1 && effects[|effects| - 1] == Callback(parse(d.content))
    ensures Callbacks(effects) == 1
    ensures Acks(effects) == (if parse(d.content).None? && Redelivered(d) then 1 else 0)
    ensures Nacks(effects) == (if parse(d.content).None? && !Redelivered(d) then 1 else 0)
    ensures forall i :: 0 <= i < |effects| && !effects[i].Callback? ==>
      effects[i].channel == b.channel && effects[i].message == d
  {
    var parsed := parse(d.content);
    var settled := if parsed.None? then [Settle(b, d)] else [];
    CountsOfConcat(settled, [Callback(parsed)]);
    settled + [Callback(parsed)]
  }

  /** A delivery is never both acked and nacked, and is settled by the wrapper exactly when it fails to parse. */
  lemma SettledAtMostOnce(b: Binding, parse: seq<byte> -> Option<Json>, d: Delivery)
    ensures var e := HandleDelivery(b, parse, d);
      Acks(e) + Nacks(e) == (if parse(d.content).None? then 1 else 0) &&
      !(Acks(e) > 0 && Nacks(e) > 0)
  {
  }

  /** As written, a delivery that fails to parse still reaches the callback, with undefined. */
  lemma ParseFailureReachesCallback(b: Binding, parse: seq<byte> -> Option<Json>, d: Delivery)
    requires parse(d.content).None?
    ensures HandleDelivery(b, parse, d) == [Settle(b, d), Callback(None)]
  {
  }

  /**
   * The handler as evidently meant: a parse failure is settled and the
   * handler returns, so the callback only ever sees parsed documents.
   */
  function HandleDeliveryIntended(b: Binding, parse: seq<byte> -> Option<Json>, d: Delivery): (effects: seq<Effect>)
    ensures Callbacks(effects) == (if parse(d.content).Some? then 1 else 0)
    ensures forall i :: 0 <= i < |effects| && effects[i].Callback? ==> effects[i].arg.Some?
    ensures forall i :: 0 <= i < |effects| ==>
      (effects[i].Callback? ==> effects[i].arg == parse(d.content)) &&
      (!effects[i].Callback? ==> effects[i].channel == b.channel && effects[i].message == d)
    ensures Acks(effects) + Nacks(effects) == (if parse(d.content).None? then 1 else 0)
    ensures Acks(effects) == 1 <==> parse(d.content).None? && Redelivered(d)
    ensures Nacks(effects) == 1 <==> parse(d.content).None? && !Redelivered(d)
  {
    match parse(d.content)
    case None => [Settle(b, d)]
    case Some(v) => [Callback(Some(v))]
  }

  /** The corrected handler is the one as written minus the trailing callback(undefined) after a parse failure. */
  lemma IntendedDropsOnlyUndefinedCallback(b: Binding, parse: seq<byte> -> Option<Json>, d: Delivery)
    ensures var w := HandleDelivery(b, parse, d);
      HandleDeliveryIntended(b, parse, d) ==
        if parse(d.content).Some? then w else w[..|w| - 1]
  {
  }
}
