/** The order assembler (backend/src/orders/orders.service.ts): re-validates the client's
    coupon, records its use, and appends the order to the order collection. */
module Orders {
  import opened Wrappers
  import opened Seqs
  import opened Coupons

  datatype ShippingMethod = Free | Standard | Express

  datatype Address = Address(
    fullName: string,
    email: string,
    phone: string,
    address: string,
    city: string,
    state: string,
    zip: string)

  /** One ordered line: the product, how many, and the unit price. */
  datatype LineItem = LineItem(productId: string, quantity: int, price: real)

  datatype Shipping = Shipping(shippingMethod: ShippingMethod, cost: real, address: Address)

  /** The body of a create request. `amount` is in the smallest currency unit (paise). */
  datatype OrderRequest = OrderRequest(
    items: seq<LineItem>,
    shipping: Shipping,
    coupon: Option<string>,
    discount: real,
    amount: real)

  datatype PaymentStatus = Pending | Paid | Failed

  /** A stored order; `amount` is in whole currency units. */
  datatype Order = Order(
    id: string,
    items: seq<LineItem>,
    shippingMethod: ShippingMethod,
    shippingCost: real,
    shippingAddress: Address,
    coupon: Option<string>,
    discount: real,
    amount: real,
    paymentStatus: PaymentStatus)

  /** `BadRequestException` with the validator's reason, and `NotFoundException`. */
  datatype OrderError = BadRequest(reason: Rejection) | OrderNotFound(id: string) | SaveFailed

  /** `if (dto.coupon)`: a coupon is present and is not the empty string. */
  predicate HasCoupon(req: OrderRequest)
  {
    req.coupon.Some? && req.coupon.value != ""
  }

  /** The subtotal the coupon is checked against: shipping plus the amount in whole units. */
  function Subtotal(req: OrderRequest): real
  {
    req.shipping.cost + req.amount / 100.0
  }

  /** The document built from the request, with the discount that is finally stored. */
  function Build(req: OrderRequest, discount: real, id: string): Order
  {
    Order(id, req.items, req.shipping.shippingMethod, req.shipping.cost, req.shipping.address,
          if HasCoupon(req) then req.coupon else None,
          discount, req.amount / 100.0, Pending)
  }

  function OrderId(o: Order): string
  {
    o.id
  }

  /** The number of orders in `orders` that redeemed the coupon whose stored code is `code`. */
  function Redemptions(orders: seq<Order>, code: string): (n: nat)
    ensures n <= |orders|
  {
    if orders == [] then 0
    else
      (if orders[0].coupon.Some? && Normalize(orders[0].coupon.value) == code then 1 else 0)
      + Redemptions(orders[1..], code)
  }

  /** The count is zero exactly when no order redeemed the code. */
  lemma {:induction false} NoRedemptions(orders: seq<Order>, code: string)
    ensures Redemptions(orders, code) == 0 <==> forall i :: 0 <= i < |orders| ==>
      orders[i].coupon.None? || Normalize(orders[i].coupon.value) != code
  {
    if orders != [] {
      NoRedemptions(orders[1..], code);
      assert forall i :: 1 <= i < |orders| ==> orders[1..][i - 1] == orders[i];
    }
  }

  /** The table `after` is `before` with each coupon's `usedCount` raised by the number of
      orders in `added` that redeemed it, and nothing else changed. */
  ghost predicate Accounts(before: map<Id, Coupon>, after: map<Id, Coupon>, added: seq<Order>)
  {
    && after.Keys == before.Keys
    && forall id :: id in before ==> Accounted(before[id], after[id], added)
  }

  /** One coupon's document before and after: only `usedCount` changed, raised by the number of
      orders in `added` that redeemed its code. */
  ghost predicate Accounted(before: Coupon, after: Coupon, added: seq<Order>)
  {
    after == before.(usedCount := before.usedCount + Redemptions(added, before.code))
  }

  /** The table `after` is `before` with each coupon's `usedCount` raised by at least the number
      of orders in `added` that redeemed it, and nothing else changed: no redemption goes
      uncounted, though a use may be counted for an order that was never stored. */
  ghost predicate AccountsAtLeast(before: map<Id, Coupon>, after: map<Id, Coupon>, added: seq<Order>)
  {
    && after.Keys == before.Keys
    && forall id :: id in before ==> AccountedAtLeast(before[id], after[id], added)
  }

  ghost predicate AccountedAtLeast(before: Coupon, after: Coupon, added: seq<Order>)
  {
    && after == before.(usedCount := after.usedCount)
    && after.usedCount >= before.usedCount + Redemptions(added, before.code)
  }

  /** Coupons with a usage limit have not been used beyond it. */
  ghost predicate CapRespected(m: map<Id, Coupon>)
  {
    forall id :: id in m && m[id].maxUses.Some? ==> m[id].usedCount <= m[id].maxUses.value
  }

  /** The order stored by `findById`. */
  function FindById(orders: seq<Order>, id: string): (r: Option<Order>)
    ensures r.Some? ==> r.value in orders && r.value.id == id
    ensures r.None? <==> forall i :: 0 <= i < |orders| ==> orders[i].id != id
  {
    FindFirst(orders, OrderIdIs(id))
  }

  function OrderIdIs(id: string): Order -> bool
  {
    (o: Order) => o.id == id
  }

  /** The order collection and the coupon service it consults. */
  class OrderService {
    var orders: seq<Order>
    const coupons: CouponService

    ghost predicate Valid()
      reads this, coupons
    {
      coupons.Valid() && DistinctBy(orders, OrderId)
    }

    constructor(couponService: CouponService)
      requires couponService.Valid()
      ensures Valid() && orders == [] && coupons == couponService
    {
      orders := [];
      coupons := couponService;
    }

    /** `create`. With a coupon present, `check` decides it against the subtotal; a refusal
        raises BadRequest and changes nothing. An accepted coupon has its usage counted and its
        discount replaces the client's. Then the pending order is saved; `saveOk` is whether
        the database accepts it. A rejected save leaves the use already counted. */
    method Create(req: OrderRequest, now: int, newId: string, saveOk: bool) returns (r: Result<Order, OrderError>)
      requires Valid() && forall i :: 0 <= i < |orders| ==> orders[i].id != newId
      modifies this, coupons
      ensures Valid()
      ensures !HasCoupon(req) ==>
        r == (if saveOk then Ok(Build(req, req.discount, newId)) else Err(SaveFailed))
        && coupons.coupons == old(coupons.coupons)
      ensures HasCoupon(req) ==>
        var verdict := Decide(ByCode(old(coupons.coupons), Normalize(req.coupon.value)), Subtotal(req), now);
        && (!verdict.valid ==>
              r == Err(BadRequest(verdict.rejection.value)) && coupons.coupons == old(coupons.coupons))
        && (verdict.valid ==>
              r == (if saveOk then Ok(Build(req, verdict.discountAmount, newId)) else Err(SaveFailed))
              && coupons.coupons == IncrementedTable(old(coupons.coupons), Normalize(req.coupon.value)))
      ensures r.Ok? ==> orders == old(orders) + [r.value]
      ensures r.Err? ==> orders == old(orders)
      ensures saveOk ==> Accounts(old(coupons.coupons), coupons.coupons, orders[|old(orders)|..])
      ensures AccountsAtLeast(old(coupons.coupons), coupons.coupons, orders[|old(orders)|..])
      ensures CapRespected(old(coupons.coupons)) ==> CapRespected(coupons.coupons)
    {
      var discount := req.discount;
      if HasCoupon(req) {
        var verdict := coupons.Check(req.coupon.value, Subtotal(req), now);
        if !verdict.valid {
          NothingRedeemed(coupons.coupons);
          return Err(BadRequest(verdict.rejection.value));
        }
        ghost var id := AcceptedIsFound(coupons.coupons, Normalize(req.coupon.value), Subtotal(req), now);
        RedeemedOnce(coupons.coupons, Normalize(req.coupon.value), id, Build(req, verdict.discountAmount, newId));
        IncrementOne(coupons.coupons, Normalize(req.coupon.value), id);
        OverCounted(coupons.coupons, id);
        coupons.IncrementUsage(req.coupon.value);
        discount := verdict.discountAmount;
      } else {
        NoCouponRedeemsNothing(coupons.coupons, req, discount, newId);
        NothingRedeemed(coupons.coupons);
      }
      var order := Build(req, discount, newId);
      if !saveOk {
        assert orders[|old(orders)|..] == [];
        return Err(SaveFailed);
      }
      orders := orders + [order];
      assert orders[|old(orders)|..] == [order];
      AccountsIsAtLeast(old(coupons.coupons), coupons.coupons, [order]);
      DistinctAppend(old(orders), order);
      r := Ok(order);
    }

    /** `findAll`: every stored order, in insertion order. */
    method FindAll() returns (r: seq<Order>)
      ensures r == orders
    {
      r := orders;
    }

    /** `findOne`: the order with the given id, or NotFound. */
    method FindOne(id: string) returns (r: Result<Order, OrderError>)
      ensures r.Ok? <==> exists i :: 0 <= i < |orders| && orders[i].id == id
      ensures r.Ok? ==> r.value in orders && r.value.id == id
      ensures r.Err? ==> r == Err(OrderNotFound(id))
    {
      var found := FindById(orders, id);
      if found.Some? {
        r := Ok(found.value);
      } else {
        r := Err(OrderNotFound(id));
      }
    }
  }

  /** An order with a fresh id keeps the ids distinct. */
  lemma DistinctAppend(orders: seq<Order>, o: Order)
    requires DistinctBy(orders, OrderId) && forall i :: 0 <= i < |orders| ==> orders[i].id != o.id
    ensures DistinctBy(orders + [o], OrderId)
  {
  }

  /** When no order is added, the table is accounted for unchanged. */
  lemma NothingRedeemed(m: map<Id, Coupon>)
    ensures Accounts(m, m, [])
    ensures AccountsAtLeast(m, m, [])
  {
  }

  /** A coupon `check` accepts is the one document holding the looked-up code, and it is below
      its usage limit. */
  lemma AcceptedIsFound(m: map<Id, Coupon>, key: string, subtotal: real, now: int) returns (id: Id)
    requires UniqueCodes(m) && Decide(ByCode(m, key), subtotal, now).valid
    ensures id in m && m[id].code == key && ByCode(m, key) == Some(m[id])
    ensures !IsExhausted(m[id]) && !IsExpired(m[id], now) && !IsBelowMinimum(m[id], subtotal)
  {
    id :| id in m && m[id].code == key;
    ByCodeFinds(m, key, id);
  }

  /** One order redeeming the code of document `id`: the increment is exactly the redemption
      count, and a document below its limit stays within it. */
  lemma RedeemedOnce(m: map<Id, Coupon>, key: string, id: Id, o: Order)
    requires UniqueCodes(m) && id in m && m[id].code == key
    requires o.coupon.Some? && Normalize(o.coupon.value) == key
    ensures Accounts(m, IncrementedTable(m, key), [o])
    ensures CapRespected(m) && !IsExhausted(m[id]) ==> CapRespected(IncrementedTable(m, key))
  {
    IncrementOne(m, key, id);
    AccountsOne(m, id, o);
    if CapRespected(m) && !IsExhausted(m[id]) {
      IncrementKeepsCap(m, id);
    }
  }

  /** One more use of document `id` accounts for an order that redeemed its code alone. */
  lemma AccountsOne(m: map<Id, Coupon>, id: Id, o: Order)
    requires UniqueCodes(m) && id in m
    requires o.coupon.Some? && Normalize(o.coupon.value) == m[id].code
    ensures Accounts(m, m[id := m[id].(usedCount := m[id].usedCount + 1)], [o])
  {
    var after := m[id := m[id].(usedCount := m[id].usedCount + 1)];
    forall other | other in m ensures Accounted(m[other], after[other], [o]) {
      AccountsOneAt(m, id, o, other);
    }
    KeysKept(m, id, after[id]);
  }

  /** Updating a document that exists keeps the set of documents. */
  lemma KeysKept(m: map<Id, Coupon>, id: Id, c: Coupon)
    requires id in m
    ensures m[id := c].Keys == m.Keys
  {
  }

  /** The entry of one document after `AccountsOne`'s increment. */
  lemma AccountsOneAt(m: map<Id, Coupon>, id: Id, o: Order, other: Id)
    requires UniqueCodes(m) && id in m && other in m
    requires o.coupon.Some? && Normalize(o.coupon.value) == m[id].code
    ensures m[id := m[id].(usedCount := m[id].usedCount + 1)][other]
         == m[other].(usedCount := m[other].usedCount + Redemptions([o], m[other].code))
  {
    var r := Redemptions([o], m[other].code);
    RedemptionsSingle(o, m[other].code);
    if other != id {
      assert m[other].code != m[id].code;
    }
    BumpEntry(m, id, other, r);
  }

  /** Raising document `id` by one raises document `other` by `r`, one for `id` itself. */
  lemma BumpEntry(m: map<Id, Coupon>, id: Id, other: Id, r: nat)
    requires id in m && other in m && r == (if other == id then 1 else 0)
    ensures m[id := m[id].(usedCount := m[id].usedCount + 1)][other]
         == m[other].(usedCount := m[other].usedCount + r)
  {
  }

  /** Exact accounting is in particular accounting from below. */
  lemma AccountsIsAtLeast(before: map<Id, Coupon>, after: map<Id, Coupon>, added: seq<Order>)
    requires Accounts(before, after, added)
    ensures AccountsAtLeast(before, after, added)
  {
    forall id | id in before ensures AccountedAtLeast(before[id], after[id], added) {
      assert Accounted(before[id], after[id], added);
    }
  }

  /** A use counted for an order that is then not stored: the table accounts from below for no
      added order, and the coupon's count is one above what the stored orders account for. */
  lemma OverCounted(m: map<Id, Coupon>, id: Id)
    requires id in m
    ensures AccountsAtLeast(m, m[id := m[id].(usedCount := m[id].usedCount + 1)], [])
    ensures m[id := m[id].(usedCount := m[id].usedCount + 1)][id].usedCount
         == m[id].usedCount + Redemptions([], m[id].code) + 1
  {
    var after := m[id := m[id].(usedCount := m[id].usedCount + 1)];
    KeysKept(m, id, after[id]);
    forall other | other in m ensures AccountedAtLeast(m[other], after[other], []) {
      BumpEntry(m, id, other, if other == id then 1 else 0);
    }
  }

  /** After a rejected save the exact ledger no longer holds: the coupon counts a use that no
      stored order accounts for. */
  lemma FailedSaveBreaksAccounts(m: map<Id, Coupon>, id: Id)
    requires id in m
    ensures !Accounts(m, m[id := m[id].(usedCount := m[id].usedCount + 1)], [])
  {
    var after := m[id := m[id].(usedCount := m[id].usedCount + 1)];
    assert !Accounted(m[id], after[id], []);
  }

  /** Accounting from below composes over a run of calls, failed saves included. */
  lemma AccountsAtLeastCompose(m1: map<Id, Coupon>, m2: map<Id, Coupon>, m3: map<Id, Coupon>,
                               a: seq<Order>, b: seq<Order>)
    requires AccountsAtLeast(m1, m2, a) && AccountsAtLeast(m2, m3, b)
    ensures AccountsAtLeast(m1, m3, a + b)
  {
    forall id | id in m1 ensures AccountedAtLeast(m1[id], m3[id], a + b) {
      assert AccountedAtLeast(m1[id], m2[id], a) && AccountedAtLeast(m2[id], m3[id], b);
      RedemptionsAppend(a, b, m1[id].code);
    }
  }

  /** Raising the count of one document below its limit keeps every document within its limit. */
  lemma IncrementKeepsCap(m: map<Id, Coupon>, id: Id)
    requires id in m && CapRespected(m) && !IsExhausted(m[id])
    ensures CapRespected(m[id := m[id].(usedCount := m[id].usedCount + 1)])
  {
  }

  lemma RedemptionsSingle(o: Order, code: string)
    ensures Redemptions([o], code) == if o.coupon.Some? && Normalize(o.coupon.value) == code then 1 else 0
  {
    assert [o][1..] == [];
  }

  /** Counting redemptions distributes over concatenation. */
  lemma {:induction false} RedemptionsAppend(a: seq<Order>, b: seq<Order>, code: string)
    ensures Redemptions(a + b, code) == Redemptions(a, code) + Redemptions(b, code)
  {
    if a == [] {
      assert a + b == b;
    } else {
      assert (a + b)[0] == a[0];
      assert (a + b)[1..] == a[1..] + b;
      RedemptionsAppend(a[1..], b, code);
    }
  }

  /** The ledger invariant over a run: if one call accounts for the orders it added and the next
      call accounts for its own, the whole run raises every coupon's `usedCount` by exactly the
      number of orders, over both calls, that redeemed it. */
  lemma AccountsCompose(m1: map<Id, Coupon>, m2: map<Id, Coupon>, m3: map<Id, Coupon>,
                        a: seq<Order>, b: seq<Order>)
    requires Accounts(m1, m2, a) && Accounts(m2, m3, b)
    ensures Accounts(m1, m3, a + b)
  {
    forall id | id in m1 ensures Accounted(m1[id], m3[id], a + b) {
      assert Accounted(m1[id], m2[id], a) && Accounted(m2[id], m3[id], b);
      RedemptionsAppend(a, b, m1[id].code);
    }
  }

  /** Orders without a coupon, or with an empty one, store no coupon and redeem nothing. */
  lemma NoCouponRedeemsNothing(m: map<Id, Coupon>, req: OrderRequest, discount: real, id: string)
    requires !HasCoupon(req)
    ensures Build(req, discount, id).coupon == None
    ensures Accounts(m, m, [Build(req, discount, id)])
  {
    var o := Build(req, discount, id);
    forall c: Coupon ensures Redemptions([o], c.code) == 0 {
      RedemptionsSingle(o, c.code);
    }
  }
}
