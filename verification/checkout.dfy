/** The Checkout page: its entry guard, its own shipping rule (free from 500
    up, otherwise 25), CEP (postal code) normalisation, the order-submission
    handler that moves to the confirmation step, and the PIX payment
    confirmation handler. The network calls are parameters: the caller
    supplies what the backend answered. */
module Checkout {
  import opened Wrappers
  import opened Text
  import Cart
  import CartPage

  datatype PaymentMethod = Pix | CreditCard

  /** The three steps of the progress bar: 0, 1 and 2 in the page's state. */
  datatype Step = CartReview | Details | Confirmation {
    function Index(): nat {
      match this
      case CartReview => 0
      case Details => 1
      case Confirmation => 2
    }
  }

  datatype PixData = PixData(qrCode: string, code: string)

  /** The order-creation response. */
  datatype Order = Order(orderId: string, orderNumber: string, total: real, pixData: Option<PixData>)

  // ------------------------------------------------------------ entry guard

  datatype GuardDecision = RedirectToLogin | RedirectToHome | Stay

  /** The page's entry effect: with no user, go to /login whatever the cart
      holds; with a user and an empty cart, go to /; otherwise stay. */
  function EntryGuard(loggedIn: bool, items: Cart.Items): (r: GuardDecision)
    ensures r == RedirectToLogin <==> !loggedIn
    ensures r == RedirectToHome <==> loggedIn && |items| == 0
    ensures r == Stay <==> loggedIn && |items| > 0
  {
    if !loggedIn then RedirectToLogin
    else if |items| == 0 then RedirectToHome
    else Stay
  }

  /** The path each redirect navigates to; staying navigates nowhere. */
  function GuardTarget(d: GuardDecision): (r: Option<string>)
    ensures r.None? <==> d == Stay
    ensures d == RedirectToLogin ==> r == Some("/login")
    ensures d == RedirectToHome ==> r == Some("/")
  {
    match d
    case RedirectToLogin => Some("/login")
    case RedirectToHome => Some("/")
    case Stay => None
  }

  // --------------------------------------------------------------- shipping

  const FreeShippingFrom: real := 500.0
  const CheckoutShippingFee: real := 25.0

  /** `shippingCost`: free when the cart total is at least 500, else 25. */
  function ShippingCost(total: real): (r: real)
    ensures r == 0.0 <==> total >= FreeShippingFrom
    ensures r != 0.0 ==> r == CheckoutShippingFee
  {
    if total >= FreeShippingFrom then 0.0 else CheckoutShippingFee
  }

  /** `finalTotal`: the cart total plus the checkout shipping cost. */
  function FinalTotal(total: real): (r: real)
    ensures total >= FreeShippingFrom ==> r == total
    ensures total < FreeShippingFrom ==> r == total + CheckoutShippingFee
  {
    total + ShippingCost(total)
  }

  /** The Checkout and Cart pages charge shipping differently: at a total of
      exactly 500 Checkout ships free and the Cart page charges 29.90, and
      below the threshold the fees differ (25 against 29.90). */
  lemma ShippingRulesDiffer()
    ensures ShippingCost(500.0) == 0.0 && CartPage.Shipping(500.0) == 29.90
    ensures forall t: real :: t < 500.0 ==> ShippingCost(t) == 25.0 && CartPage.Shipping(t) == 29.90
    ensures forall t: real :: t > 500.0 ==> ShippingCost(t) == 0.0 && CartPage.Shipping(t) == 0.0
  {
  }

  /** The final total is not monotone in the cart total: one cent below the
      threshold costs more than the threshold itself. */
  lemma FinalTotalDropsAtThreshold()
    ensures FinalTotal(499.99) > FinalTotal(500.0)
  {
  }

  // -------------------------------------------------------------------- CEP

  /** The form rule `^\d{5}-?\d{3}$` for the CEP field. */
  predicate CepPattern(s: string): (b: bool)
    ensures b ==> 8 <= |s| <= 9 && forall i :: 0 <= i < |s| ==> IsDigit(s[i]) || (i == 5 && s[i] == '-')
  {
    || (|s| == 8 && AllDigits(s))
    || (|s| == 9 && AllDigits(s[..5]) && s[5] == '-' && AllDigits(s[6..]))
  }

  /** Both written forms of a CEP pass; a misplaced hyphen or a ninth digit
      does not. */
  lemma CepExamples()
    ensures CepPattern("01310-100") && CepPattern("01310100")
    ensures !CepPattern("0131-0100") && !CepPattern("013101000")
  {
  }

  /** `replace(/\D/g, '')`: keep only the ASCII digits. */
  function StripNonDigits(s: string): (r: string)
    ensures AllDigits(r)
    ensures |r| <= |s|
    ensures AllDigits(s) ==> r == s
  {
    if |s| == 0 then ""
    else if IsDigit(s[0]) then [s[0]] + StripNonDigits(s[1..])
    else StripNonDigits(s[1..])
  }

  /** Stripping only deletes: every character it returns is taken from the
      input, as often as it occurs there. */
  lemma {:induction false} StripDeletes(s: string)
    ensures multiset(StripNonDigits(s)) <= multiset(s)
    decreases |s|
  {
    if |s| > 0 {
      StripDeletes(s[1..]);
      assert s == [s[0]] + s[1..];
    }
  }

  lemma {:induction false} StripAppend(a: string, b: string)
    ensures StripNonDigits(a + b) == StripNonDigits(a) + StripNonDigits(b)
    decreases |a|
  {
    if |a| == 0 {
      assert a + b == b;
    } else {
      assert (a + b)[1..] == a[1..] + b;
      StripAppend(a[1..], b);
    }
  }

  /** A CEP the form accepts is sent as exactly its eight digits: the
      optional hyphen is dropped and nothing else changes. */
  lemma CepNormalised(s: string)
    ensures CepPattern(s) ==> var z := StripNonDigits(s);
      |z| == 8 && AllDigits(z) && z == s[..5] + s[|s| - 3..]
  {
    if !CepPattern(s) {
    } else if |s| == 9 {
      assert s == s[..5] + [s[5]] + s[6..];
      StripAppend(s[..5] + [s[5]], s[6..]);
      StripAppend(s[..5], [s[5]]);
      assert StripNonDigits([s[5]]) == [];
    } else {
      assert s == s[..5] + s[5..];
    }
  }

  // ------------------------------------------------------------ order form

  datatype ShippingAddress = ShippingAddress(
    street: string, number: string, complement: Option<string>,
    neighborhood: string, city: string, state: string, zipCode: string)

  /** The submitted form values. */
  datatype OrderForm = OrderForm(
    street: string, number: string, complement: Option<string>,
    neighborhood: string, city: string, state: string, zipCode: string,
    notes: Option<string>)

  /** The form's own rules, which it checks before it calls its submit
      handler: street, number, neighbourhood, city and state are required
      (a required text field refuses only the empty value), and the CEP is
      required and must match `^\d{5}-?\d{3}$`. Complement and notes are
      optional. */
  predicate FormAccepted(f: OrderForm) {
    && |f.street| > 0 && |f.number| > 0 && |f.neighborhood| > 0
    && |f.city| > 0 && |f.state| > 0
    && |f.zipCode| > 0 && CepPattern(f.zipCode)
  }

  /** The body of the order-creation call. */
  datatype OrderRequest = OrderRequest(paymentMethod: PaymentMethod, address: ShippingAddress, notes: Option<string>)

  /** Builds the request: the address fields are copied and the CEP is
      stripped of everything but digits. */
  function BuildRequest(payment: PaymentMethod, form: OrderForm): (r: OrderRequest)
    ensures r.paymentMethod == payment && r.notes == form.notes
    ensures r.address.street == form.street && r.address.number == form.number
    ensures r.address.complement == form.complement && r.address.neighborhood == form.neighborhood
    ensures r.address.city == form.city && r.address.state == form.state
    ensures AllDigits(r.address.zipCode)
    ensures CepPattern(form.zipCode) ==> |r.address.zipCode| == 8
  {
    CepNormalised(form.zipCode);
    OrderRequest(payment,
      ShippingAddress(form.street, form.number, form.complement, form.neighborhood,
                      form.city, form.state, StripNonDigits(form.zipCode)),
      form.notes)
  }

  // --------------------------------------------------------- page session

  /** The page state: current step, chosen payment method, the created
      order, whether the PIX dialog is open, the cart store's lines, whether
      a user is logged in, and the path the page navigated away to (`None`
      while the page is still shown). */
  datatype Session = Session(step: Step, payment: PaymentMethod, order: Option<Order>, pixModalOpen: bool,
                             cart: Cart.Items, loggedIn: bool, left: Option<string>)

  /** The page invariant: an order exists exactly at the confirmation step. */
  predicate OrderAtConfirmation(s: Session) {
    s.step == Confirmation <==> s.order.Some?
  }

  /** The state the page is created in, before its effects run: step 0, PIX
      preselected, no order, the dialog closed. */
  function Init(loggedIn: bool, cart: Cart.Items): (s: Session)
    ensures s.step == CartReview && s.payment == Pix && !s.pixModalOpen && s.left.None?
    ensures s.cart == cart && s.loggedIn == loggedIn
    ensures OrderAtConfirmation(s)
  {
    Session(CartReview, Pix, None, false, cart, loggedIn, None)
  }

  /** Which guard effect the page runs: the one as written, or the corrected
      one that no longer redirects once an order has been created. */
  datatype GuardVariant = AsWritten | SkipAfterOrder

  /** The guard effect. It runs when the page mounts and again whenever the
      cart's lines are replaced, since `items` is one of its dependencies; a
      redirect leaves the page. A page already left runs nothing. */
  function GuardEffect(g: GuardVariant, s: Session): (r: Session)
    ensures s.left.Some? ==> r == s
    ensures r.(left := s.left) == s
    ensures s.left.None? && (g == AsWritten || s.order.None?) ==>
      r.left == GuardTarget(EntryGuard(s.loggedIn, s.cart))
    ensures g == SkipAfterOrder && s.order.Some? ==> r == s
  {
    if s.left.Some? || (g == SkipAfterOrder && s.order.Some?) then s
    else s.(left := GuardTarget(EntryGuard(s.loggedIn, s.cart)))
  }

  /** Mounting the page: the initial state, then the guard effect. The page
      is shown exactly when the entry guard says to stay. */
  function Mount(g: GuardVariant, loggedIn: bool, cart: Cart.Items): (s: Session)
    ensures s.left.None? <==> EntryGuard(loggedIn, cart) == Stay
    ensures s.left == GuardTarget(EntryGuard(loggedIn, cart))
    ensures s.(left := None) == Init(loggedIn, cart)
  {
    GuardEffect(g, Init(loggedIn, cart))
  }

  datatype FinishResult = FinishResult(request: OrderRequest, session: Session)

  /** `handleFinishOrder`: sends the request; on success stores the order,
      moves to step 2, opens the PIX dialog when paying by PIX and clears
      the cart; on failure nothing changes. */
  function FinishOrder(s: Session, form: OrderForm, response: Result<Order, string>): (r: FinishResult)
    ensures r.request.paymentMethod == s.payment
    ensures r.request.address.zipCode == StripNonDigits(form.zipCode)
    ensures response.Ok? ==>
      && r.session.step == Confirmation
      && r.session.order == Some(response.value)
      && r.session.cart == []
      && r.session.payment == s.payment
      && r.session.loggedIn == s.loggedIn && r.session.left == s.left
      && (r.session.pixModalOpen <==> s.pixModalOpen || s.payment == Pix)
    ensures response.Err? ==> r.session == s
  {
    var request := BuildRequest(s.payment, form);
    match response
    case Err(_) => FinishResult(request, s)
    case Ok(order) =>
      var openPix := if s.payment == Pix then true else s.pixModalOpen;
      FinishResult(request, s.(order := Some(order), step := Confirmation, pixModalOpen := openPix, cart := Cart.ClearCart()))
  }

  datatype ConfirmResult = ConfirmResult(session: Session, confirmedOrder: Option<string>, navigateTo: Option<string>)

  /** `handleConfirmPayment`: does nothing without an order; otherwise asks
      the backend to confirm payment of that order and, on success, closes
      the dialog and navigates to the order's page. */
  function ConfirmPayment(s: Session, response: Outcome<string>): (r: ConfirmResult)
    ensures s.order.None? ==> r == ConfirmResult(s, None, None)
    ensures s.order.Some? ==> r.confirmedOrder == Some(s.order.value.orderId)
    ensures s.order.Some? && response.Pass? ==>
      && r.session == s.(pixModalOpen := false)
      && r.navigateTo == Some("/orders/" + s.order.value.orderId)
    ensures response.Fail? ==> r.session == s && r.navigateTo.None?
  {
    match s.order
    case None => ConfirmResult(s, None, None)
    case Some(o) =>
      match response
      case Pass => ConfirmResult(s.(pixModalOpen := false), Some(o.orderId), Some("/orders/" + o.orderId))
      case Fail(_) => ConfirmResult(s, Some(o.orderId), None)
  }

  // ------------------------------------------------------ event sequences

  /** What the user can do on the page. The payment radio group and the
      submit button live inside the form, which is only rendered at step 1;
      the confirm button lives inside the PIX dialog; the two buttons of the
      confirmation panel exist at step 2 once an order is stored, and the
      open dialog's mask covers them (clicking the mask closes the dialog). */
  datatype Event =
    | ChooseMethod(payment: PaymentMethod)
    | SubmitForm(form: OrderForm, response: Result<Order, string>)
    | ConfirmPix(outcome: Outcome<string>)
    | ClosePix
    | ViewOrder
    | ContinueShopping

  /** `e` is a submission of a form the form's rules accept, answered with
      order `o`. */
  predicate CreatedBy(e: Event, o: Order) {
    e.SubmitForm? && FormAccepted(e.form) && e.response == Ok(o)
  }

  /** One event and the effects it triggers. A form the rules refuse is
      never handed to the submit handler; a successful submission clears
      the cart, so the guard effect runs again; a confirmed payment and the
      two confirmation buttons navigate. A page already left ignores events. */
  function Next(g: GuardVariant, s: Session, e: Event): (r: Session)
    ensures s.left.Some? ==> r == s
    ensures r.loggedIn == s.loggedIn
    ensures s.step.Index() <= r.step.Index()
    ensures OrderAtConfirmation(s) ==> OrderAtConfirmation(r)
    ensures e.SubmitForm? && !FormAccepted(e.form) ==> r == s
    ensures r.order != s.order ==> r.order.Some? && CreatedBy(e, r.order.value)
    ensures s.left.None? && s.step == Confirmation && s.order.Some? && !s.pixModalOpen ==>
      (e == ViewOrder ==> r == s.(left := Some("/orders/" + s.order.value.orderId))) &&
      (e == ContinueShopping ==> r == s.(left := Some("/")))
  {
    if s.left.Some? then s
    else
      match e
      case ChooseMethod(m) => if s.step == Details then s.(payment := m) else s
      case SubmitForm(f, resp) =>
        if s.step != Details || !FormAccepted(f) then s
        else if resp.Ok? then GuardEffect(g, FinishOrder(s, f, resp).session)
        else FinishOrder(s, f, resp).session
      case ConfirmPix(o) =>
        if s.pixModalOpen then
          var c := ConfirmPayment(s, o);
          c.session.(left := c.navigateTo)
        else s
      case ClosePix => s.(pixModalOpen := false)
      case ViewOrder =>
        if s.step == Confirmation && s.order.Some? && !s.pixModalOpen
        then s.(left := Some("/orders/" + s.order.value.orderId)) else s
      case ContinueShopping =>
        if s.step == Confirmation && s.order.Some? && !s.pixModalOpen
        then s.(left := Some("/")) else s
  }

  /** A sequence of events, in order. The step never goes back and a page
      that has been left stays left. */
  function Run(g: GuardVariant, s: Session, events: seq<Event>): (r: Session)
    ensures s.left.Some? ==> r == s
    ensures r.loggedIn == s.loggedIn
    ensures s.step.Index() <= r.step.Index()
    decreases |events|
  {
    if |events| == 0 then s else Run(g, Next(g, s, events[0]), events[1..])
  }

  /** As written, nothing moves the page from step 0 to step 1, and the form
      only exists at step 1: whatever the user does, the page stays at step
      0 with no order and the cart untouched. */
  lemma {:induction false} StuckAtCartReview(loggedIn: bool, cart: Cart.Items, events: seq<Event>)
    ensures Run(AsWritten, Mount(AsWritten, loggedIn, cart), events) == Mount(AsWritten, loggedIn, cart)
    decreases |events|
  {
    var s := Mount(AsWritten, loggedIn, cart);
    if |events| > 0 {
      assert Next(AsWritten, s, events[0]) == s;
      StuckAtCartReview(loggedIn, cart, events[1..]);
    }
  }

  /** Every event keeps the invariant, and no event leaves the confirmation step. */
  lemma {:induction false} RunKeepsInvariant(g: GuardVariant, s: Session, events: seq<Event>)
    requires OrderAtConfirmation(s)
    ensures OrderAtConfirmation(Run(g, s, events))
    ensures s.step == Confirmation ==> Run(g, s, events).step == Confirmation
    decreases |events|
  {
    if |events| > 0 {
      RunKeepsInvariant(g, Next(g, s, events[0]), events[1..]);
    }
  }

  /** Every order the page holds was created by a submission of a form its
      rules accepted, and the request sent for it carried the CEP as exactly
      eight digits. Returns the index of that submission. */
  lemma {:induction false} OrderFromAcceptedForm(g: GuardVariant, s: Session, events: seq<Event>) returns (i: nat)
    requires s.order.None?
    requires Run(g, s, events).order.Some?
    ensures i < |events| && CreatedBy(events[i], Run(g, s, events).order.value)
    ensures var z := StripNonDigits(events[i].form.zipCode); |z| == 8 && AllDigits(z)
    decreases |events|
  {
    var t := Next(g, s, events[0]);
    if t.order.Some? {
      i := 0;
      OrderKept(g, t, events[1..]);
    } else {
      var j := OrderFromAcceptedForm(g, t, events[1..]);
      i := j + 1;
      assert events[i] == events[1..][j];
    }
    CepNormalised(events[i].form.zipCode);
  }

  /** At step 2 the stored order never changes again. */
  lemma {:induction false} OrderKept(g: GuardVariant, s: Session, events: seq<Event>)
    requires s.order.Some? && s.step == Confirmation
    ensures Run(g, s, events).order == s.order
    decreases |events|
  {
    if |events| > 0 {
      OrderKept(g, Next(g, s, events[0]), events[1..]);
    }
  }

  /** What the guard protects: while the page is shown a user is logged in
      and the cart has lines, or, with the corrected guard, an order exists. */
  predicate GuardHolds(g: GuardVariant, s: Session) {
    s.left.None? ==> s.loggedIn && (|s.cart| > 0 || (g == SkipAfterOrder && s.order.Some?))
  }

  /** The guard's promise holds on the mounted page and after any sequence
      of events: the page is never shown to a visitor without a user, nor
      with an empty cart unless the corrected guard kept it for an order. */
  lemma {:induction false} RunKeepsGuard(g: GuardVariant, s: Session, events: seq<Event>)
    requires GuardHolds(g, s)
    requires OrderAtConfirmation(s)
    ensures GuardHolds(g, Run(g, s, events))
    decreases |events|
  {
    if |events| > 0 {
      var t := Next(g, s, events[0]);
      assert GuardHolds(g, t);
      RunKeepsGuard(g, t, events[1..]);
    }
  }

  /** The mounted page satisfies the guard's promise. */
  lemma MountKeepsGuard(g: GuardVariant, loggedIn: bool, cart: Cart.Items)
    ensures GuardHolds(g, Mount(g, loggedIn, cart)) && OrderAtConfirmation(Mount(g, loggedIn, cart))
  {
  }

  /** The corrected start state: the page opens at step 1, so the address
      and payment form is shown once the entry guard lets the user stay. */
  function InitFixed(loggedIn: bool, cart: Cart.Items): (s: Session)
    ensures s.step == Details && s.order.None? && s.cart == cart && s.left.None?
    ensures s.loggedIn == loggedIn && s.payment == Pix && !s.pixModalOpen
    ensures OrderAtConfirmation(s)
  {
    Session(Details, Pix, None, false, cart, loggedIn, None)
  }

  /** Mounting with the corrected start state. */
  function MountFixed(g: GuardVariant, loggedIn: bool, cart: Cart.Items): (s: Session)
    ensures s.left.None? <==> EntryGuard(loggedIn, cart) == Stay
    ensures s.(left := None) == InitFixed(loggedIn, cart)
  {
    GuardEffect(g, InitFixed(loggedIn, cart))
  }

  /** With the corrected start, a logged-in user with a non-empty cart sees
      the form, a successful submission creates the order and clears the
      cart, and a failed one leaves the page as it was. */
  lemma FixedStartSubmits(g: GuardVariant, cart: Cart.Items, form: OrderForm, order: Order, err: string)
    requires |cart| > 0
    ensures var s := MountFixed(g, true, cart);
      s.left.None? && s.step == Details
    ensures var s := Run(g, MountFixed(g, true, cart), [SubmitForm(form, Ok(order))]);
      s.step == Confirmation && s.order == Some(order) && s.cart == [] <==> FormAccepted(form)
    ensures Run(g, MountFixed(g, true, cart), [SubmitForm(form, Err(err))]) == MountFixed(g, true, cart)
  {
  }

  /** As written, the guard runs again once a successful submission clears
      the cart and sends the page to "/": the PIX dialog is gone before the
      user can confirm, and no later event does anything. */
  lemma SuccessLeavesPage(cart: Cart.Items, form: OrderForm, order: Order, events: seq<Event>)
    requires |cart| > 0 && FormAccepted(form)
    ensures var s := Run(AsWritten, MountFixed(AsWritten, true, cart), [SubmitForm(form, Ok(order))]);
      s.left == Some("/") && Run(AsWritten, s, events) == s
  {
  }

  /** With both corrections, paying by PIX completes: after a successful
      submission the page stays at step 2 with the dialog open, and a
      confirmed payment closes it and navigates to the order's page. */
  lemma FixedCheckoutCompletes(cart: Cart.Items, form: OrderForm, order: Order)
    requires |cart| > 0 && FormAccepted(form)
    ensures var s := Run(SkipAfterOrder, MountFixed(SkipAfterOrder, true, cart), [SubmitForm(form, Ok(order))]);
      s.left.None? && s.step == Confirmation && s.order == Some(order) && s.cart == [] && s.pixModalOpen
    ensures var s := Run(SkipAfterOrder, MountFixed(SkipAfterOrder, true, cart), [SubmitForm(form, Ok(order)), ConfirmPix(Pass)]);
      s.left == Some("/orders/" + order.orderId) && !s.pixModalOpen && s.order == Some(order)
  {
    var s0 := MountFixed(SkipAfterOrder, true, cart);
    var s1 := Next(SkipAfterOrder, s0, SubmitForm(form, Ok(order)));
    assert Run(SkipAfterOrder, s0, [SubmitForm(form, Ok(order)), ConfirmPix(Pass)])
        == Run(SkipAfterOrder, s1, [ConfirmPix(Pass)]);
  }
}
