/** The cart store: the module-level `cart` array, its copy in the
    browser's storage under `mos_cart`, the counter on the cart icon, and
    the operations that change them, including the decision part of order
    submission. The page itself (rendering, notifications' placement and
    timers, event wiring) is not part of this model; a notification is
    returned as the text it would show. */
module CartStore {
  import opened Nullable
  import opened Decimal
  import opened CartLines
  import opened CheckoutForm

  const CartStorageKey := "mos_cart"

  // ---------------------------------------------------------------------
  // The stored snapshot

  /** What the storage slot holds: the JSON text `saveCart` wrote for some
      lines, or some other text that is not valid JSON. */
  datatype Stored = Encoded(lines: seq<CartLine>) | Garbage(text: string)

  /** The outcome of `loadCart`: the lines, or an exception out of
      `JSON.parse`. */
  datatype LoadResult = Loaded(lines: seq<CartLine>) | Threw

  /** `saveCart`'s write: the JSON of the current lines. */
  function Snapshot(lines: seq<CartLine>): Stored {
    Encoded(lines)
  }

  /** `loadCart`: a missing or empty item gives the empty cart; anything
      else goes to `JSON.parse` unguarded, so text that is not JSON throws. */
  function LoadCart(stored: Option<Stored>): (r: LoadResult)
    ensures r.Threw? <==> stored.Some? && stored.value.Garbage? && stored.value.text != ""
    ensures stored.None? ==> r == Loaded([])
    ensures stored.Some? && stored.value.Encoded? ==> r == Loaded(stored.value.lines)
  {
    match stored
    case None => Loaded([])
    case Some(Encoded(lines)) => Loaded(lines)
    case Some(Garbage(text)) => if text == "" then Loaded([]) else Threw
  }

  /** What `saveCart` writes, `loadCart` reads back unchanged. */
  lemma SaveLoadRoundTrip(lines: seq<CartLine>)
    ensures LoadCart(Some(Snapshot(lines))) == Loaded(lines)
  {
  }

  // ---------------------------------------------------------------------
  // The counter on the cart icon

  /** The counter's text and whether it is displayed. */
  datatype Badge = Badge(text: string, shown: bool)

  /** `updateCartIcon`: a positive count is shown in decimal; otherwise the
      counter says "0" and is hidden. */
  function BadgeFor(count: int): (b: Badge)
    ensures b.shown <==> count > 0
    ensures AllDigits(b.text)
    ensures count > 0 ==> DigitsValue(b.text) == count
    ensures count <= 0 ==> b.text == "0"
  {
    if count > 0 then
      DecimalStringValue(count);
      Badge(DecimalString(count), true)
    else
      Badge("0", false)
  }

  // ---------------------------------------------------------------------
  // Order submission: the request and the texts shown

  /** The body a successful or failed `response.json()` yields: the
      `message` and `error` members, each possibly absent. */
  datatype ReplyBody = ReplyBody(message: Option<string>, error: Option<string>)

  datatype Body = Json(value: ReplyBody) | NotJson(reason: string)

  /** What `fetch('/api/order', ...)` produced: a rejection with its error
      message, or a response with its `ok` flag and body. */
  datatype Reply = NoResponse(reason: string) | Response(ok: bool, body: Body)

  /** The `orderData` object that is posted. */
  datatype OrderRequest = OrderRequest(customer: FormData, items: seq<CartLine>, total: int,
                                       date: string, orderId: string)

  const OrderIdPrefix := "ORD-"
  const SuccessPrefix := "✅ "
  const FailurePrefix := "❌ Ошибка: "
  const ServerErrorText := "Ошибка сервера"
  const EmptyCartNotice := "Корзина пуста!"
  const AddedNotice := "Товар добавлен в корзину"
  const ClearedNotice := "Корзина очищена"
  /** How JavaScript concatenates an absent member into a string. */
  const UndefinedText := "undefined"

  /** `'ORD-' + Date.now().toString().slice(-8)`: the prefix and the last
      (at most) eight decimal digits of the clock reading. */
  function OrderId(nowMs: nat): (id: string)
    ensures |id| >= 5 && id[..4] == OrderIdPrefix
    ensures |id| <= 12 && (nowMs >= 10000000 ==> |id| == 12)
    ensures AllDigits(id[4..]) && DigitsValue(id[4..]) == nowMs % 100000000
  {
    var digits := Last(DecimalString(nowMs), 8);
    LastDigitsValue(nowMs, 8);
    assert Pow10(8) == 100000000 && Pow10(7) == 10000000;
    var id := OrderIdPrefix + digits;
    assert id[4..] == digits;
    if nowMs >= 10000000 then
      DecimalStringAtLeast(nowMs, 8);
      id
    else
      id
  }

  /** The order posted for a form and the cart's lines at that moment. */
  function OrderFor(form: FormData, lines: seq<CartLine>, isoDate: string, nowMs: nat): (r: OrderRequest)
    ensures r.customer == form && r.items == lines && r.total == TotalPrice(lines)
    ensures r.orderId == OrderId(nowMs) && r.date == isoDate
  {
    OrderRequest(form, lines, TotalPrice(lines), isoDate, OrderId(nowMs))
  }

  /** The cart is cleared only when the body parsed and `response.ok` holds. */
  predicate Accepted(reply: Reply) {
    reply.Response? && reply.ok && reply.body.Json?
  }

  /** The message of the error thrown on a non-ok response:
      `result.error || 'Ошибка сервера'`. */
  function ServerError(body: ReplyBody): (msg: string)
    ensures msg != ""
    ensures body.error.Some? && body.error.value != "" ==> msg == body.error.value
  {
    if body.error.Some? && body.error.value != "" then body.error.value else ServerErrorText
  }

  /** The notification shown once the request was sent. */
  function ReplyNotice(reply: Reply): (n: string)
    ensures Accepted(reply) ==> n == SuccessPrefix + reply.body.value.message.GetOr(UndefinedText)
    ensures !Accepted(reply) ==> |n| >= |FailurePrefix| && n[..|FailurePrefix|] == FailurePrefix
    ensures reply.NoResponse? ==> n == FailurePrefix + reply.reason
    ensures reply.Response? && reply.body.NotJson? ==> n == FailurePrefix + reply.body.reason
    ensures reply.Response? && !reply.ok && reply.body.Json? ==>
              n == FailurePrefix + ServerError(reply.body.value)
  {
    match reply
    case NoResponse(reason) => Failure(reason)
    case Response(ok, NotJson(reason)) => Failure(reason)
    case Response(ok, Json(body)) =>
      if ok then SuccessPrefix + body.message.GetOr(UndefinedText)
      else Failure(ServerError(body))
  }

  /** The failure notification for an error's message. */
  function Failure(message: string): (n: string)
    ensures |n| == |FailurePrefix| + |message|
    ensures n[..|FailurePrefix|] == FailurePrefix && n[|FailurePrefix|..] == message
  {
    FailurePrefix + message
  }

  /** `errors.join('\n')`. */
  function JoinLines(xs: seq<string>): (r: string)
    ensures xs == [] ==> r == ""
    ensures |xs| == 1 ==> r == xs[0]
    ensures xs != [] ==> |r| >= |xs[|xs| - 1]| && r[|r| - |xs[|xs| - 1]|..] == xs[|xs| - 1]
  {
    if |xs| <= 1 then (if xs == [] then "" else xs[0])
    else JoinLines(xs[..|xs| - 1]) + "\n" + xs[|xs| - 1]
  }

  /** The total length of the messages. */
  function Lengths(xs: seq<string>): nat {
    if xs == [] then 0 else Lengths(xs[..|xs| - 1]) + |xs[|xs| - 1]|
  }

  /** Where the i-th message starts in the joined text: after the earlier
      messages and one separator after each. */
  function StartOf(xs: seq<string>, i: nat): nat
    requires i <= |xs|
  {
    Lengths(xs[..i]) + i
  }

  /** The joined text is the messages' lengths plus one separator between
      each two. */
  lemma {:induction false} JoinLinesLength(xs: seq<string>)
    requires xs != []
    ensures |JoinLines(xs)| == Lengths(xs) + |xs| - 1
  {
    if |xs| == 1 {
      assert xs[..0] == [];
    } else {
      JoinLinesLength(xs[..|xs| - 1]);
    }
  }

  /** The next message starts after this one and its separator. */
  lemma StartOfNext(xs: seq<string>, i: nat)
    requires i < |xs|
    ensures StartOf(xs, i + 1) == StartOf(xs, i) + |xs[i]| + 1
  {
    assert xs[..i + 1][..i] == xs[..i];
  }

  /** Every message appears in the joined text, in order: the i-th starts at
      `StartOf(xs, i)`, and a '\n' follows each but the last. */
  lemma {:induction false} JoinLinesParts(xs: seq<string>, i: nat)
    requires i < |xs|
    ensures StartOf(xs, i) + |xs[i]| <= |JoinLines(xs)|
    ensures JoinLines(xs)[StartOf(xs, i)..StartOf(xs, i) + |xs[i]|] == xs[i]
    ensures i + 1 < |xs| ==>
              StartOf(xs, i) + |xs[i]| < |JoinLines(xs)| && JoinLines(xs)[StartOf(xs, i) + |xs[i]|] == '\n'
    decreases |xs|, 1
  {
    if |xs| == 1 {
      assert xs[..0] == [];
      assert JoinLines(xs) == xs[0];
    } else if i + 1 < |xs| {
      JoinLinesPartsEarlier(xs, i);
    } else {
      JoinLinesPartsLast(xs);
    }
  }

  /** A message before the last lies in the join of the messages before
      the last. */
  lemma {:induction false} JoinLinesPartsEarlier(xs: seq<string>, i: nat)
    requires i + 1 < |xs|
    ensures StartOf(xs, i) + |xs[i]| < |JoinLines(xs)|
    ensures JoinLines(xs)[StartOf(xs, i)..StartOf(xs, i) + |xs[i]|] == xs[i]
    ensures JoinLines(xs)[StartOf(xs, i) + |xs[i]|] == '\n'
    decreases |xs|, 0
  {
    var ys, y := xs[..|xs| - 1], xs[|xs| - 1];
    var a := JoinLines(ys);
    assert JoinLines(xs) == a + "\n" + y;
    assert xs[..i] == ys[..i] && xs[i] == ys[i];
    JoinLinesParts(ys, i);
    if i + 1 == |ys| {
      JoinLinesLength(ys);
      StartOfNext(ys, i);
      assert ys[..i + 1] == ys;
    }
    JoinedEarlier(a, y, xs[i], StartOf(ys, i));
  }

  /** The last message ends the joined text, after the separator. */
  lemma JoinLinesPartsLast(xs: seq<string>)
    requires |xs| >= 2
    ensures StartOf(xs, |xs| - 1) + |xs[|xs| - 1]| == |JoinLines(xs)|
    ensures JoinLines(xs)[StartOf(xs, |xs| - 1)..] == xs[|xs| - 1]
  {
    var ys, y := xs[..|xs| - 1], xs[|xs| - 1];
    var a := JoinLines(ys);
    assert JoinLines(xs) == a + "\n" + y;
    JoinLinesLength(ys);
    JoinedLast(a, y);
  }

  /** A message inside `a`, followed in `a` by a separator or by the end
      of `a`, stays in place in `a + "\n" + y` and is followed by a
      separator. */
  lemma JoinedEarlier(a: string, y: string, x: string, p: nat)
    requires p + |x| <= |a| && a[p..p + |x|] == x
    requires p + |x| < |a| ==> a[p + |x|] == '\n'
    ensures (a + "\n" + y)[p..p + |x|] == x && (a + "\n" + y)[p + |x|] == '\n'
  {
    assert (a + "\n" + y)[p..p + |x|] == a[p..p + |x|];
  }

  /** The last part of `a + "\n" + y` is `y`. */
  lemma JoinedLast(a: string, y: string)
    ensures (a + "\n" + y)[|a| + 1..] == y
  {
  }

  // ---------------------------------------------------------------------
  // The store

  class Cart {
    /** The module-level `cart` array. */
    var lines: seq<CartLine>
    /** The storage item under `CartStorageKey`, if any. */
    var storage: Option<Stored>
    /** The counter on the cart icon, once `updateCartIcon` has made one. */
    var badge: Option<Badge>

    /** The script starts with an empty cart and whatever storage holds. */
    constructor (stored: Option<Stored>)
      ensures lines == [] && storage == stored && badge == None
    {
      lines := [];
      storage := stored;
      badge := None;
    }

    /** `init`: the cart becomes what `loadCart` read and the counter is
        brought up to date; if `loadCart` throws, nothing changes. */
    method Init() returns (threw: bool)
      modifies this
      ensures threw <==> LoadCart(old(storage)).Threw?
      ensures !threw ==> lines == LoadCart(old(storage)).lines && badge == Some(BadgeFor(ItemCount(lines)))
      ensures threw ==> lines == old(lines) && badge == old(badge)
      ensures storage == old(storage)
    {
      var r := LoadCart(storage);
      if r.Threw? {
        threw := true;
      } else {
        threw := false;
        lines := r.lines;
        UpdateCartIcon();
      }
    }

    /** `updateCartIcon`. */
    method UpdateCartIcon()
      modifies this
      ensures badge == Some(BadgeFor(ItemCount(lines)))
      ensures lines == old(lines) && storage == old(storage)
    {
      badge := Some(BadgeFor(ItemCount(lines)));
    }

    /** `saveCart`: the snapshot is written and the counter updated. */
    method SaveCart()
      modifies this
      ensures storage == Some(Snapshot(lines)) && badge == Some(BadgeFor(ItemCount(lines)))
      ensures lines == old(lines)
    {
      storage := Some(Snapshot(lines));
      UpdateCartIcon();
    }

    /** `addToCart`: one more of the product's (id, size) line, or a new
        line; always saved, always notified, always true. */
    method AddToCart(p: Product) returns (ok: bool, notice: string)
      modifies this
      ensures ok && notice == AddedNotice
      ensures lines == AddedTo(old(lines), p)
      ensures ItemCount(lines) == ItemCount(old(lines)) + 1
      ensures TotalPrice(lines) == TotalPrice(old(lines))
                                   + FindInCart(old(lines), p.id, SizeOrDefault(p.size)).GetOr(NewLine(p)).price
      ensures old(WellFormed(lines)) ==> WellFormed(lines)
      ensures storage == Some(Snapshot(lines)) && badge == Some(BadgeFor(ItemCount(lines)))
    {
      var size := SizeOrDefault(p.size);
      var k := FindIndex(lines, p.id, size);
      AddCountsOne(lines, p);
      if WellFormed(lines) {
        AddPreservesWellFormed(lines, p);
      }
      if k >= 0 {
        lines := lines[k := lines[k].(quantity := lines[k].quantity + 1)];
      } else {
        lines := lines + [NewLine(p)];
      }
      SaveCart();
      ok, notice := true, AddedNotice;
    }

    /** `removeFromCart`: the first line for (id, size) is spliced out and
        the cart saved, with result true; without such a line, false and
        nothing changes. */
    method RemoveFromCart(id: string, size: Option<string>) returns (removed: bool)
      modifies this
      ensures removed <==> FindIndex(old(lines), id, SizeOrDefault(size)) >= 0
      ensures lines == Removed(old(lines), id, SizeOrDefault(size))
      ensures old(WellFormed(lines)) ==> WellFormed(lines)
      ensures removed ==> storage == Some(Snapshot(lines)) && badge == Some(BadgeFor(ItemCount(lines)))
      ensures !removed ==> lines == old(lines) && storage == old(storage) && badge == old(badge)
    {
      var sz := SizeOrDefault(size);
      var index := FindIndex(lines, id, sz);
      if WellFormed(lines) {
        RemovePreservesWellFormed(lines, id, sz);
      }
      if index != -1 {
        lines := lines[..index] + lines[index + 1..];
        SaveCart();
        removed := true;
      } else {
        removed := false;
      }
    }

    /** `updateQuantity`: below 1 the line is removed as by
        `removeFromCart`, otherwise only its quantity changes; true exactly
        when the line was there. */
    method UpdateQuantity(id: string, newQuantity: int, size: Option<string>) returns (found: bool)
      modifies this
      ensures found <==> FindIndex(old(lines), id, SizeOrDefault(size)) >= 0
      ensures lines == WithQuantity(old(lines), id, newQuantity, SizeOrDefault(size))
      ensures old(WellFormed(lines)) ==> WellFormed(lines)
      ensures found ==> storage == Some(Snapshot(lines)) && badge == Some(BadgeFor(ItemCount(lines)))
      ensures !found ==> lines == old(lines) && storage == old(storage) && badge == old(badge)
    {
      var sz := SizeOrDefault(size);
      var k := FindIndex(lines, id, sz);
      if WellFormed(lines) {
        SetPreservesWellFormed(lines, id, newQuantity, sz);
      }
      if k >= 0 {
        if newQuantity < 1 {
          var _ := RemoveFromCart(id, size);
        } else {
          lines := lines[k := lines[k].(quantity := newQuantity)];
          SaveCart();
        }
        found := true;
      } else {
        found := false;
      }
    }

    /** `clearCart`: on an empty cart nothing happens and nothing is asked;
        otherwise the user is asked, and only a confirmation empties and
        saves the cart and shows "Корзина очищена". */
    method ClearCart(confirmed: bool) returns (asked: bool, notice: Option<string>)
      modifies this
      ensures asked <==> old(lines) != []
      ensures notice == if asked && confirmed then Some(ClearedNotice) else None
      ensures asked && confirmed ==> lines == [] && storage == Some(Snapshot([])) && badge == Some(BadgeFor(0))
      ensures !(asked && confirmed) ==> lines == old(lines) && storage == old(storage) && badge == old(badge)
    {
      if |lines| == 0 {
        return false, None;
      }
      asked, notice := true, None;
      if confirmed {
        lines := [];
        SaveCart();
        notice := Some(ClearedNotice);
      }
    }

    /** `submitOrderForm`. An invalid form shows its errors and a cart
        that is empty shows "Корзина пуста!", both without sending.
        Otherwise the order is sent, and the cart is emptied, with result
        true, exactly when the reply was ok and its body parsed; on every
        other outcome the cart, its snapshot and its counter are left as
        they were. */
    method SubmitOrderForm(form: FormData, isoDate: string, nowMs: nat, reply: Reply)
      returns (ok: bool, request: Option<OrderRequest>, notice: string)
      modifies this
      ensures request.Some? <==> AllRulesHold(form) && old(lines) != []
      ensures request.Some? ==> request.value == OrderFor(form, old(lines), isoDate, nowMs)
      ensures ok <==> request.Some? && Accepted(reply)
      ensures !AllRulesHold(form) ==> notice == JoinLines(FormErrors(form))
      ensures AllRulesHold(form) && old(lines) == [] ==> notice == EmptyCartNotice
      ensures request.Some? ==> notice == ReplyNotice(reply)
      ensures ok ==> lines == [] && storage == Some(Snapshot([])) && badge == Some(BadgeFor(0))
      ensures !ok ==> lines == old(lines) && storage == old(storage) && badge == old(badge)
    {
      var valid, errors := ValidateFormData(form);
      FormErrorsPerRule(form);
      if !valid {
        return false, None, JoinLines(errors);
      }
      if |lines| == 0 {
        return false, None, EmptyCartNotice;
      }
      request := Some(OrderFor(form, lines, isoDate, nowMs));
      notice := ReplyNotice(reply);
      if Accepted(reply) {
        lines := [];
        SaveCart();
        ok := true;
      } else {
        ok := false;
      }
    }
  }

  // ---------------------------------------------------------------------
  // Scenarios

  /** A valid form, a cart with one line and an ok reply with a parsed
      body: the cart is emptied, its counter hidden, and the server's
      message shown after "✅ ". */
  method SubmitAcceptedClears(c: Cart, form: FormData, nowMs: nat, message: string)
    returns (ok: bool, notice: string)
    requires AllRulesHold(form) && |c.lines| == 1
    modifies c
    ensures c.lines == [] && ItemCount(c.lines) == 0 && c.badge == Some(Badge("0", false))
    ensures ok && notice == SuccessPrefix + message
  {
    var reply := Response(true, Json(ReplyBody(Some(message), None)));
    var request;
    assert Accepted(reply) && ReplyNotice(reply) == SuccessPrefix + message;
    ok, request, notice := c.SubmitOrderForm(form, "", nowMs, reply);
    assert request.Some? && notice == ReplyNotice(reply);
    assert BadgeFor(0) == Badge("0", false);
  }

  /** A server error keeps the cart and shows the server's message. */
  lemma ServerErrorShown()
    ensures ReplyNotice(Response(false, Json(ReplyBody(None, Some("db down"))))) == FailurePrefix + "db down"
    ensures !Accepted(Response(false, Json(ReplyBody(None, Some("db down")))))
  {
  }

  /** A non-ok reply without an error member falls back to the generic text. */
  lemma ServerErrorFallback(body: ReplyBody)
    requires body.error.None? || body.error == Some("")
    ensures ReplyNotice(Response(false, Json(body))) == FailurePrefix + ServerErrorText
  {
  }

  /** An ok status with a body that does not parse is a failure: the cart
      is kept. */
  lemma OkButNotJsonKeepsCart(reason: string)
    ensures !Accepted(Response(true, NotJson(reason)))
    ensures ReplyNotice(Response(true, NotJson(reason))) == FailurePrefix + reason
  {
  }

  /** Removing an id the cart does not hold fails and changes nothing. */
  method RemoveMissing(c: Cart, id: string) returns (removed: bool)
    requires forall i :: 0 <= i < |c.lines| ==> c.lines[i].id != id
    modifies c
    ensures !removed && c.lines == old(c.lines)
  {
    removed := c.RemoveFromCart(id, None);
  }
}
