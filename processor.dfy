/**
 * The payment processor behind the Stripe client library, as an oracle.
 * Every request the core issues is appended to a log; what the processor
 * answers is a script of replies fixed in advance, so that any behaviour of
 * the remote side (fresh ids, failures, anything) is one possible script.
 * A request made after the script is exhausted fails, as a network error would.
 */
module Processor {
  import opened Wrappers

  /** A value in the keyword arguments of `stripe.Product.modify`. */
  datatype FieldValue = Text(text: Option<string>) | Flag(flag: bool)

  datatype LineItem = LineItem(price: Option<string>, quantity: int)

  /** The parameters of `stripe.checkout.Session.create` that the core chooses per request. */
  datatype SessionParams = SessionParams(
    customer: Option<string>,
    paymentMethodTypes: seq<string>,
    lineItems: seq<LineItem>,
    mode: string,
    clientReferenceId: string,
    metadata: map<string, string>)

  /** One request to the processor. */
  datatype Call =
    | CreateCustomer(email: string, name: string)
    | CreateProduct(name: string, description: Option<string>, active: bool, metadata: map<string, string>)
    | CreatePrice(product: Option<string>, unitAmount: int, currency: string)
    | ModifyProduct(productId: string, updates: map<string, FieldValue>)
    | DeactivatePrice(price: string)
    | CreateCheckoutSession(params: SessionParams)

  /** The processor's answer: a failure (a raised `StripeError`) or the new object's id and, for sessions, its URL. */
  datatype Reply = Fail | Done(id: string, url: string)

  /** The processor as a value: the requests so far and the replies still to come. */
  datatype GatewayState = GatewayState(log: seq<Call>, replies: seq<Reply>)

  /** Issue one request: log it and consume the next scripted reply. */
  function Exchange(g: GatewayState, c: Call): (Reply, GatewayState)
  {
    if |g.replies| == 0 then (Fail, GatewayState(g.log + [c], []))
    else (g.replies[0], GatewayState(g.log + [c], g.replies[1..]))
  }

  /** The requests issued after the processor was in state g. */
  function NewCalls(g: GatewayState, g': GatewayState): seq<Call>
    requires |g.log| <= |g'.log|
  {
    g'.log[|g.log|..]
  }

  class Gateway {
    var log: seq<Call>
    var replies: seq<Reply>

    function State(): GatewayState
      reads this
    {
      GatewayState(log, replies)
    }

    constructor (script: seq<Reply>)
      ensures log == [] && replies == script
    {
      log := [];
      replies := script;
    }

    method Send(c: Call) returns (reply: Reply)
      modifies this
      ensures (reply, State()) == Exchange(old(State()), c)
      ensures log == old(log) + [c]
    {
      log := log + [c];
      if |replies| == 0 {
        reply := Fail;
      } else {
        reply := replies[0];
        replies := replies[1..];
      }
    }
  }
}
