/** The checkout page's logic (src/pages/Checkout.tsx): the shipping rule, the grand total,
    which of its three views the page renders, and the order in which submitting updates the
    page and clears the cart. The cart store is outside this model: its total price and item
    count are inputs, and `clearCart` is an opaque call. The simulated network delay is one
    atomic step, and the random order id is a parameter. */
module Checkout {
  import opened Wrappers

  /** Subtotal from which shipping is free. */
  const FreeShippingFrom: int := 500
  /** Shipping charged below that subtotal. */
  const FlatShipping: int := 50

  function ShippingCost(totalPrice: int): int
  {
    if totalPrice >= FreeShippingFrom then 0 else FlatShipping
  }

  function GrandTotal(totalPrice: int): int
  {
    totalPrice + ShippingCost(totalPrice)
  }

  /** Shipping is free exactly from 500 on and 50 below it, so the grand total lies between the
      subtotal and the subtotal plus 50. */
  lemma GrandTotalBounds(totalPrice: int)
    ensures ShippingCost(totalPrice) == 0 <==> totalPrice >= 500
    ensures ShippingCost(totalPrice) == 50 <==> totalPrice < 500
    ensures totalPrice <= GrandTotal(totalPrice) <= totalPrice + 50
    ensures GrandTotal(totalPrice) == totalPrice <==> totalPrice >= 500
  {
  }

  /** At the threshold: 499 costs 549 in all, 500 costs 500. */
  lemma GrandTotalThreshold()
    ensures GrandTotal(499) == 549
    ensures GrandTotal(500) == 500
  {
  }

  /** The grand total never decreases as the subtotal grows, except across the threshold, where
      it can drop by at most the shipping charge. */
  lemma GrandTotalAcrossThreshold(a: int, b: int)
    requires a <= b
    ensures GrandTotal(a) <= GrandTotal(b) + 50
    ensures (a >= 500 || b < 500) ==> GrandTotal(a) <= GrandTotal(b)
  {
  }

  datatype View = EmptyCart | OrderConfirmed | CheckoutForm

  /** The early returns of the page, in order. */
  function SelectView(itemCount: nat, orderPlaced: bool): View
  {
    if itemCount == 0 && !orderPlaced then EmptyCart
    else if orderPlaced then OrderConfirmed
    else CheckoutForm
  }

  /** The empty-cart view shows exactly when the cart is empty and nothing was ordered; the
      confirmation shows exactly when an order was placed, whatever the cart holds; the form
      otherwise. */
  lemma ViewSelection(itemCount: nat, orderPlaced: bool)
    ensures SelectView(itemCount, orderPlaced) == EmptyCart <==> itemCount == 0 && !orderPlaced
    ensures SelectView(itemCount, orderPlaced) == OrderConfirmed <==> orderPlaced
    ensures SelectView(itemCount, orderPlaced) == CheckoutForm <==> itemCount > 0 && !orderPlaced
  {
  }

  /** One observable step of `handleSubmit`. */
  datatype Step =
    | SetLoading(on: bool)
    | DelayResolved
    | SetOrderId(id: string)
    | SetOrderPlaced
    | ClearCart

  /** The page's own state, plus whether the cart has been told to clear. */
  datatype PageState = PageState(loading: bool, orderPlaced: bool, orderId: Option<string>, cartCleared: bool)

  function Apply(s: PageState, step: Step): PageState
  {
    match step
    case SetLoading(on) => s.(loading := on)
    case DelayResolved => s
    case SetOrderId(id) => s.(orderId := Some(id))
    case SetOrderPlaced => s.(orderPlaced := true)
    case ClearCart => s.(cartCleared := true)
  }

  function Replay(s: PageState, steps: seq<Step>): PageState
    decreases |steps|
  {
    if steps == [] then s else Replay(Apply(s, steps[0]), steps[1..])
  }

  /** The steps of one submission: loading on, the delay, the order id, the confirmation flag,
      the cart cleared, loading off. */
  function SubmitSteps(orderId: string): seq<Step>
  {
    [SetLoading(true), DelayResolved, SetOrderId(orderId), SetOrderPlaced, ClearCart, SetLoading(false)]
  }

  lemma {:induction false} ReplayAppend(s: PageState, a: seq<Step>, b: seq<Step>)
    ensures Replay(s, a + b) == Replay(Replay(s, a), b)
    decreases |a|
  {
    if a != [] {
      assert (a + b)[1..] == a[1..] + b;
      ReplayAppend(Apply(s, a[0]), a[1..], b);
    } else {
      assert a + b == b;
    }
  }

  /** Replaying one more step of a list applies that step to where the shorter prefix left off. */
  lemma ReplayPrefixStep(s: PageState, steps: seq<Step>, k: nat)
    requires k < |steps|
    ensures Replay(s, steps[..k + 1]) == Apply(Replay(s, steps[..k]), steps[k])
  {
    assert steps[..k + 1] == steps[..k] + [steps[k]];
    ReplayAppend(s, steps[..k], [steps[k]]);
  }

  /** Submitting starts by turning loading on and ends by turning it off; the cart is cleared
      once, after the delay has resolved; until the delay resolves only `loading` changes, and
      it stays on until the last step; the page ends with the order placed under the given id
      and the cart told to clear. */
  lemma SubmitOrdering(s: PageState, orderId: string)
    ensures var steps := SubmitSteps(orderId);
            && steps[0] == SetLoading(true)
            && steps[|steps| - 1] == SetLoading(false)
            && forall i, j :: 0 <= i < |steps| && 0 <= j < |steps| && steps[i] == ClearCart && steps[j] == DelayResolved ==> j < i
    ensures forall k :: 1 <= k <= 2 ==> Replay(s, SubmitSteps(orderId)[..k]) == s.(loading := true)
    ensures forall k :: 1 <= k < 6 ==> Replay(s, SubmitSteps(orderId)[..k]).loading
    ensures forall k :: 0 <= k < 5 ==> Replay(s, SubmitSteps(orderId)[..k]).cartCleared == s.cartCleared
    ensures Replay(s, SubmitSteps(orderId)) == PageState(false, true, Some(orderId), true)
  {
    var steps := SubmitSteps(orderId);
    var st := [s, s.(loading := true), s.(loading := true),
               s.(loading := true, orderId := Some(orderId)),
               s.(loading := true, orderId := Some(orderId), orderPlaced := true),
               s.(loading := true, orderId := Some(orderId), orderPlaced := true, cartCleared := true),
               PageState(false, true, Some(orderId), true)];
    assert Replay(s, steps[..0]) == st[0];
    for k := 0 to 6
      invariant forall m :: 0 <= m <= k ==> Replay(s, steps[..m]) == st[m]
    {
      ReplayPrefixStep(s, steps, k);
    }
    assert steps[..6] == steps;
  }

  /** The page's state hooks. */
  class CheckoutPage {
    var loading: bool
    var orderPlaced: bool
    var orderId: Option<string>
    /** The steps taken so far, in order. */
    var trace: seq<Step>
    /** Whether `clearCart` has been called. */
    var cartCleared: bool

    function State(): PageState
      reads this
    {
      PageState(loading, orderPlaced, orderId, cartCleared)
    }

    constructor ()
      ensures State() == PageState(false, false, None, false) && trace == []
    {
      loading, orderPlaced, orderId, cartCleared := false, false, None, false;
      trace := [];
    }

    method Do(step: Step)
      modifies this
      ensures State() == Apply(old(State()), step)
      ensures trace == old(trace) + [step]
    {
      match step {
        case SetLoading(on) => loading := on;
        case DelayResolved =>
        case SetOrderId(id) => orderId := Some(id);
        case SetOrderPlaced => orderPlaced := true;
        case ClearCart => cartCleared := true;
      }
      trace := trace + [step];
    }

    /** `handleSubmit`, with the delay as one step and `mockOrderId` standing for the random id. */
    method HandleSubmit(mockOrderId: string)
      modifies this
      ensures trace == old(trace) + SubmitSteps(mockOrderId)
      ensures State() == Replay(old(State()), SubmitSteps(mockOrderId))
      ensures State() == PageState(false, true, Some(mockOrderId), true)
    {
      ghost var s0 := State();
      Do(SetLoading(true));
      Do(DelayResolved);
      Do(SetOrderId(mockOrderId));
      Do(SetOrderPlaced);
      Do(ClearCart);
      Do(SetLoading(false));
      SubmitOrdering(s0, mockOrderId);
    }
  }
}
