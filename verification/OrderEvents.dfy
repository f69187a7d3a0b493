/** The order event as the consumers see it once its JSON body has been parsed, and the records that carry it. */
module OrderEvents {

  datatype Option<+T> = None | Some(value: T)

  /** A UUID, of which only its identity matters. */
  type EventId = nat

  type OrderId = string

  datatype OrderEvent = OrderEvent(
    eventId: EventId,
    orderId: OrderId,
    customerId: string,
    amount: real,
    currency: string,
    correlationId: string)

  /** A message body: JSON that parses into an order event, or anything else. */
  datatype Body = Order(event: OrderEvent) | Malformed(text: string)

  datatype Record = Record(key: Option<string>, body: Body)

  /**
   What the outside world does to one call: nothing, or raise an exception. The call may have taken effect before
   it raised (a lost acknowledgement), and the exception may or may not be one the retry policy lists.
   */
  datatype Fault = Calm | Raise(applied: bool, retryable: bool)
}
