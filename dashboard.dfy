/** The figures of the admin dashboard (frontend/src/components/Dashboard.js:35-88):
    the revenue and the three list sizes, the five most recent orders with
    their users' names, and the number of payments per status. Amounts are
    integers. */
module Dashboard {
  import opened Text
  import opened ConsoleData

  /** A payment as the payments endpoint returns it. */
  datatype PaymentRow = PaymentRow(id: int, orderId: int, amount: int, paymentMethod: string, status: string)

  // ---- Revenue and the list sizes ----

  /** `payments.filter(p => p.status === st)`. */
  function WithStatus(ps: seq<PaymentRow>, st: string): (r: seq<PaymentRow>)
    ensures |r| <= |ps|
    ensures forall i :: 0 <= i < |r| ==> r[i].status == st && r[i] in ps
  {
    if ps == [] then []
    else WithStatus(ps[..|ps| - 1], st) + (if ps[|ps| - 1].status == st then [ps[|ps| - 1]] else [])
  }

  /** The filter keeps every copy of a payment with the status and no copy of any other. */
  lemma {:induction false} WithStatusCounts(ps: seq<PaymentRow>, st: string)
    ensures forall p :: multiset(WithStatus(ps, st))[p] == (if p.status == st then multiset(ps)[p] else 0)
  {
    if ps != [] {
      var t, y := ps[..|ps| - 1], ps[|ps| - 1];
      assert ps == t + [y];
      WithStatusCounts(t, st);
      WithStatusSnoc(t, y, st);
    }
  }

  /** The filter keeps the order of the list: it goes through a concatenation. */
  lemma {:induction false} WithStatusAppend(a: seq<PaymentRow>, b: seq<PaymentRow>, st: string)
    ensures WithStatus(a + b, st) == WithStatus(a, st) + WithStatus(b, st)
    decreases |b|
  {
    if b == [] {
      assert a + b == a;
    } else {
      var t, y := b[..|b| - 1], b[|b| - 1];
      var last := if y.status == st then [y] else [];
      assert b == t + [y];
      assert a + b == (a + t) + [y];
      WithStatusSnoc(a + t, y, st);
      WithStatusSnoc(t, y, st);
      WithStatusAppend(a, t, st);
      calc {
        WithStatus(a + b, st);
        WithStatus((a + t) + [y], st);
        WithStatus(a + t, st) + last;
        (WithStatus(a, st) + WithStatus(t, st)) + last;
        { AppendAssociative(WithStatus(a, st), WithStatus(t, st), last); }
        WithStatus(a, st) + (WithStatus(t, st) + last);
        WithStatus(a, st) + WithStatus(b, st);
      }
    }
  }

  lemma AppendAssociative(x: seq<PaymentRow>, y: seq<PaymentRow>, z: seq<PaymentRow>)
    ensures (x + y) + z == x + (y + z)
  {
  }

  /** One payment is kept at the end exactly when it has the status. */
  lemma WithStatusSnoc(t: seq<PaymentRow>, y: PaymentRow, st: string)
    ensures WithStatus(t + [y], st) == WithStatus(t, st) + (if y.status == st then [y] else [])
    ensures WithStatus([y], st) == (if y.status == st then [y] else [])
  {
    assert (t + [y])[..|t|] == t;
    assert [y][..0] == [];
  }

  /** `.reduce((sum, p) => sum + p.amount, 0)`. */
  function SumAmounts(ps: seq<PaymentRow>): int {
    if ps == [] then 0 else SumAmounts(ps[..|ps| - 1]) + ps[|ps| - 1].amount
  }

  /** The "Total Revenue" card: the amounts of the "Paid" payments. */
  function Revenue(ps: seq<PaymentRow>): int {
    SumAmounts(WithStatus(ps, "Paid"))
  }

  /** The four cards. */
  datatype Stats = Stats(revenue: int, orders: nat, users: nat, products: nat)

  function MakeStats(users: seq<User>, products: seq<Product>, orders: seq<OrderRow>, payments: seq<PaymentRow>): (r: Stats)
    ensures r.orders == |orders| && r.users == |users| && r.products == |products|
    ensures r.revenue == Revenue(payments)
  {
    Stats(Revenue(payments), |orders|, |users|, |products|)
  }

  lemma {:induction false} SumAmountsAppend(a: seq<PaymentRow>, b: seq<PaymentRow>)
    ensures SumAmounts(a + b) == SumAmounts(a) + SumAmounts(b)
    decreases |b|
  {
    if b == [] {
      assert a + b == a;
    } else {
      assert (a + b)[..|a + b| - 1] == a + b[..|b| - 1];
      SumAmountsAppend(a, b[..|b| - 1]);
    }
  }

  /** Revenue adds up over the two halves of a list. */
  lemma {:induction false} RevenueAppend(a: seq<PaymentRow>, b: seq<PaymentRow>)
    ensures Revenue(a + b) == Revenue(a) + Revenue(b)
    decreases |b|
  {
    if b == [] {
      assert a + b == a;
    } else {
      var b' := b[..|b| - 1];
      assert (a + b)[..|a + b| - 1] == a + b';
      RevenueAppend(a, b');
      var tail := if b[|b| - 1].status == "Paid" then [b[|b| - 1]] else [];
      SumAmountsAppend(WithStatus(a + b', "Paid"), tail);
      SumAmountsAppend(WithStatus(b', "Paid"), tail);
      SumAmountsAppend(WithStatus(a, "Paid"), WithStatus(b', "Paid"));
    }
  }

  /** A payment that is not "Paid" leaves the revenue as it is; a "Paid" one adds its amount. */
  lemma RevenueOfOneMore(ps: seq<PaymentRow>, p: PaymentRow)
    ensures Revenue(ps + [p]) == Revenue(ps) + (if p.status == "Paid" then p.amount else 0)
  {
    var qs := ps + [p];
    assert qs[..|qs| - 1] == ps && qs[|qs| - 1] == p;
    if p.status == "Paid" {
      assert WithStatus(qs, "Paid") == WithStatus(ps, "Paid") + [p];
      SumAmountsAppend(WithStatus(ps, "Paid"), [p]);
      assert [p][..0] == [];
    } else {
      assert WithStatus(qs, "Paid") == WithStatus(ps, "Paid") + [];
      assert WithStatus(ps, "Paid") + [] == WithStatus(ps, "Paid");
    }
  }

  /** Without a "Paid" payment the revenue is 0. */
  lemma {:induction false} RevenueWithoutPaid(ps: seq<PaymentRow>)
    requires forall i :: 0 <= i < |ps| ==> ps[i].status != "Paid"
    ensures Revenue(ps) == 0
  {
    if ps != [] {
      RevenueWithoutPaid(ps[..|ps| - 1]);
      RevenueOfOneMore(ps[..|ps| - 1], ps[|ps| - 1]);
      assert ps[..|ps| - 1] + [ps[|ps| - 1]] == ps;
    }
  }

  // ---- The recent orders ----

  /** `xs.reverse()`. */
  function Reverse<T>(xs: seq<T>): (r: seq<T>)
    ensures |r| == |xs|
    ensures forall i :: 0 <= i < |xs| ==> r[i] == xs[|xs| - 1 - i]
  {
    if xs == [] then [] else [xs[|xs| - 1]] + Reverse(xs[..|xs| - 1])
  }

  /** `orders.slice(-5)`: the last five orders, or all when there are fewer. */
  function LastFive(orders: seq<OrderRow>): seq<OrderRow> {
    if |orders| <= 5 then orders else orders[|orders| - 5..]
  }

  /** A row of "Recent Orders": the order and the name shown for its user. */
  datatype RecentOrder = RecentOrder(order: OrderRow, userName: string)

  /** `usersData.find(u => u.id === id)`: the first user with that id. */
  function FindUser(users: seq<User>, id: int): (r: Option<User>)
    ensures r.Some? ==> r.value in users && r.value.id == id
    ensures r.None? ==> forall u :: u in users ==> u.id != id
  {
    if users == [] then None
    else if users[0].id == id then Some(users[0])
    else FindUser(users[1..], id)
  }

  /** The user `FindUser` returns is the first one with the id: none before it has it. */
  lemma {:induction false} FindUserFirst(users: seq<User>, id: int)
    ensures FindUser(users, id).Some? ==>
      exists k :: (0 <= k < |users| && users[k] == FindUser(users, id).value &&
                   forall j :: 0 <= j < k ==> users[j].id != id)
  {
    if users != [] && users[0].id != id && FindUser(users[1..], id).Some? {
      FindUserFirst(users[1..], id);
      var k :| 0 <= k < |users[1..]| && users[1..][k] == FindUser(users[1..], id).value &&
        forall j :: 0 <= j < k ==> users[1..][j].id != id;
      assert users[k + 1] == FindUser(users, id).value;
      forall j | 0 < j < k + 1
        ensures users[j].id != id
      {
        assert users[j] == users[1..][j - 1];
      }
    } else if users != [] && users[0].id == id {
      assert users[0] == FindUser(users, id).value;
    }
  }

  /** The user's name, or "ID: " and the user id when no user has it. */
  function UserName(users: seq<User>, userId: int): string {
    var u := FindUser(users, userId);
    if u.Some? then u.value.name else "ID: " + IntToString(userId)
  }

  function WithNames(users: seq<User>, orders: seq<OrderRow>): (r: seq<RecentOrder>)
    ensures |r| == |orders|
    ensures forall i :: 0 <= i < |orders| ==> r[i] == RecentOrder(orders[i], UserName(users, orders[i].userId))
  {
    if orders == [] then [] else [RecentOrder(orders[0], UserName(users, orders[0].userId))] + WithNames(users, orders[1..])
  }

  /** `last5Orders`: the last five orders, newest last in the list and so
      first on screen, each with its user's name. */
  function Last5Orders(users: seq<User>, orders: seq<OrderRow>): seq<RecentOrder> {
    WithNames(users, Reverse(LastFive(orders)))
  }

  /** The reversed window holds min(5, n) orders, the last one first. */
  lemma ReversedWindow(orders: seq<OrderRow>) returns (reversed: seq<OrderRow>)
    ensures reversed == Reverse(LastFive(orders))
    ensures |reversed| == (if |orders| < 5 then |orders| else 5)
    ensures forall i :: 0 <= i < |reversed| ==> reversed[i] == orders[|orders| - 1 - i]
  {
    var window := LastFive(orders);
    var start := if |orders| <= 5 then 0 else |orders| - 5;
    assert window == orders[start..];
    reversed := Reverse(window);
    forall i | 0 <= i < |reversed|
      ensures reversed[i] == orders[|orders| - 1 - i]
    {
      var k := |window| - 1 - i;
      assert reversed[i] == window[k];
      assert window[k] == orders[start + k];
    }
  }

  /** The window holds min(5, n) orders: the i-th is the (i+1)-th from the end. */
  lemma Last5OrdersWindow(users: seq<User>, orders: seq<OrderRow>)
    ensures var r := Last5Orders(users, orders);
      |r| == (if |orders| < 5 then |orders| else 5) &&
      forall i :: 0 <= i < |r| ==> r[i].order == orders[|orders| - 1 - i]
  {
    var reversed := ReversedWindow(orders);
    var r := WithNames(users, reversed);
    assert forall i :: 0 <= i < |r| ==> r[i].order == reversed[i];
  }

  /** A recent order shows its user's name when the user is known, else "ID: <id>". */
  lemma RecentUserName(users: seq<User>, orders: seq<OrderRow>, i: int)
    requires 0 <= i < |Last5Orders(users, orders)|
    ensures var r := Last5Orders(users, orders)[i];
      (exists u :: u in users && u.id == r.order.userId) ==> r.userName == FindUser(users, r.order.userId).value.name
    ensures var r := Last5Orders(users, orders)[i];
      (forall u :: u in users ==> u.id != r.order.userId) ==> r.userName == "ID: " + IntToString(r.order.userId)
  {
  }

  // ---- Payments per status ----

  /** The accumulator of the status fold. */
  datatype StatusCounts = StatusCounts(pending: nat, paid: nat, failed: nat)

  /** The `reduce` of `statusCounts`, one payment after the other. */
  function CountStatuses(ps: seq<PaymentRow>): StatusCounts {
    if ps == [] then StatusCounts(0, 0, 0)
    else
      var acc := CountStatuses(ps[..|ps| - 1]);
      var st := ps[|ps| - 1].status;
      if st == "Paid" then acc.(paid := acc.paid + 1)
      else if st == "Pending" then acc.(pending := acc.pending + 1)
      else if st == "Failed" then acc.(failed := acc.failed + 1)
      else acc
  }

  /** Each counter is the number of payments with exactly that status. */
  lemma {:induction false} CountStatusesExact(ps: seq<PaymentRow>)
    ensures CountStatuses(ps).paid == |WithStatus(ps, "Paid")|
    ensures CountStatuses(ps).pending == |WithStatus(ps, "Pending")|
    ensures CountStatuses(ps).failed == |WithStatus(ps, "Failed")|
  {
    if ps != [] {
      CountStatusesExact(ps[..|ps| - 1]);
    }
  }

  /** The three counters never add up to more than the payments, and a
      payment with any other status ("Refunded", say) is counted nowhere. */
  lemma {:induction false} CountStatusesBound(ps: seq<PaymentRow>)
    ensures var c := CountStatuses(ps); c.paid + c.pending + c.failed <= |ps|
  {
    if ps != [] {
      CountStatusesBound(ps[..|ps| - 1]);
    }
  }

  lemma OtherStatusNotCounted(ps: seq<PaymentRow>, p: PaymentRow)
    requires p.status != "Paid" && p.status != "Pending" && p.status != "Failed"
    ensures CountStatuses(ps + [p]) == CountStatuses(ps)
  {
    assert (ps + [p])[..|ps + [p]| - 1] == ps;
  }
}
