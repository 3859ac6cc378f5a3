/** The payments service's request handlers (payments/payments.py:69-243),
    over a store of payments kept in memory in place of the `payments`
    table. The total the orders service reports for an order is a
    parameter. Amounts are integers. */
module PaymentsService {
  import opened Text
  import opened RequestValues

  /** A row of the `payments` table, without its id. */
  datatype Payment = Payment(orderId: int, amount: int, paymentMethod: string, status: string)

  /** The JSON reply of a handler and its HTTP status. */
  datatype Reply =
    | Created(message: string, id: int, amount: int, status: string)   // 201
    | Moved(message: string, newId: int)                               // 200
    | Done(message: string)                                            // 200
    | Failed(code: int, error: string)

  /** The outcome of a chain of request checks. */
  datatype Checked<T> = Pass(value: T) | Reject(reply: Reply)

  const InvalidFormat: string := "Invalid data format"
  const OrderIdNotPositive: string := "Order ID must be positive"
  const MethodRequired: string := "Payment method is required"
  const NoOrderTotal: string := "Invalid order or order total is 0"
  const IdNotPositive: string := "ID must be positive"
  const IdTaken: string := "ID already exists"
  const NewIdTaken: string := "New ID already exists"
  const NotFound: string := "Payment not found"
  /** The text of an uncaught Python exception (a missing key, `int(None)`); its exact wording is not modelled. */
  const InternalError: string := "internal error"

  /** The status a payment gets when the request names none. */
  const DefaultStatus: string := "Pending"

  /** The auto-increment ids stay above every stored id: the table's identity counter. */
  predicate IdsBelow(payments: map<int, Payment>, lastId: int) {
    lastId >= 0 && forall id :: id in payments ==> 1 <= id <= lastId
  }

  // ---- make_payment ----

  /** The body of `POST /payments`. `orderId` and `paymentMethod` are None
      when the key is missing; a method given as null is Some(None). */
  datatype PaymentRequest = PaymentRequest(orderId: Option<Json>, paymentMethod: Option<Option<string>>, status: Option<string>, id: Json)

  /** What the orders service reports as the order's total: its `total`, or
      0 when it does not answer with the order. */
  function OrderTotalOf(totals: map<int, int>, orderId: int): int {
    if orderId in totals then totals[orderId] else 0
  }

  /** The checks `make_payment` makes before it looks at the id, in its
      order: `int(order_id)`, the method key, the order id positive, the
      method not empty, the order's total positive. The row it would store
      takes its amount from the orders service. */
  function MakeCheck(req: PaymentRequest, totals: map<int, int>): Checked<Payment> {
    if req.orderId.None? then Reject(Failed(500, InternalError))
    else
      match PyIntOf(req.orderId.value)
      case TypeError => Reject(Failed(500, InternalError))
      case ValueError => Reject(Failed(400, InvalidFormat))
      case IsInt(oid) =>
        if req.paymentMethod.None? then Reject(Failed(500, InternalError))
        else if oid <= 0 then Reject(Failed(400, OrderIdNotPositive))
        else if req.paymentMethod.value.None? || req.paymentMethod.value.value == "" then Reject(Failed(400, MethodRequired))
        else if OrderTotalOf(totals, oid) <= 0 then Reject(Failed(400, NoOrderTotal))
        else
          var status := if req.status.Some? then req.status.value else DefaultStatus;
          Pass(Payment(oid, OrderTotalOf(totals, oid), req.paymentMethod.value.value, status))
  }

  /** The insert of `make_payment`: a falsy `id` asks for the next identity
      value; a given one must be a positive integer not yet used, and moves
      the identity counter up to it. */
  function InsertEffect(payments: map<int, Payment>, lastId: int, row: Payment, customId: Json)
    : (Reply, map<int, Payment>, int)
  {
    if !Truthy(customId) then
      (Created("Payment created", lastId + 1, row.amount, row.status), payments[lastId + 1 := row], lastId + 1)
    else
      match PyIntOf(customId)
      case IsInt(cid) =>
        if cid <= 0 then (Failed(400, IdNotPositive), payments, lastId)
        else if cid in payments then (Failed(409, IdTaken), payments, lastId)
        else (Created("Payment created with custom ID", cid, row.amount, row.status), payments[cid := row], if cid > lastId then cid else lastId)
      case _ => (Failed(400, InvalidFormat), payments, lastId)
  }

  /** `make_payment` as a whole. */
  function MakeEffect(payments: map<int, Payment>, lastId: int, req: PaymentRequest, totals: map<int, int>)
    : (Reply, map<int, Payment>, int)
  {
    var checked := MakeCheck(req, totals);
    if checked.Reject? then (checked.reply, payments, lastId)
    else InsertEffect(payments, lastId, checked.value, req.id)
  }

  // ---- list_payments ----

  /** The `search` filter of `list_payments`: blank keeps every payment, an
      integer keeps the payments with that id or that order id, anything else
      keeps the payments whose method or status contains it. */
  predicate PaymentListed(id: int, p: Payment, search: string) {
    var t := Strip(search);
    t == "" ||
    (PyInt(t).Some? && (id == PyInt(t).value || p.orderId == PyInt(t).value)) ||
    (PyInt(t).None? && (Contains(p.paymentMethod, t) || Contains(p.status, t)))
  }

  function ListPayments(payments: map<int, Payment>, search: string): (r: map<int, Payment>)
    ensures forall id :: id in r ==> id in payments && r[id] == payments[id]
  {
    map id | id in payments && PaymentListed(id, payments[id], search) :: payments[id]
  }

  // ---- update_payment ----

  /** The body of `PUT /payments/<id>`: the new id (null when absent) and
      each field, None when absent. */
  datatype PaymentUpdate = PaymentUpdate(id: Json, orderId: Option<int>, amount: Option<int>, paymentMethod: Option<string>, status: Option<string>)

  /** The row with each field the request gives replaced. */
  function WithFields(p: Payment, req: PaymentUpdate): (r: Payment)
    ensures r.orderId == (if req.orderId.Some? then req.orderId.value else p.orderId)
    ensures r.amount == (if req.amount.Some? then req.amount.value else p.amount)
    ensures r.paymentMethod == (if req.paymentMethod.Some? then req.paymentMethod.value else p.paymentMethod)
    ensures r.status == (if req.status.Some? then req.status.value else p.status)
  {
    Payment(
      if req.orderId.Some? then req.orderId.value else p.orderId,
      if req.amount.Some? then req.amount.value else p.amount,
      if req.paymentMethod.Some? then req.paymentMethod.value else p.paymentMethod,
      if req.status.Some? then req.status.value else p.status)
  }

  /** Whether the request moves the payment to another id: its `id` is truthy
      and reads as an integer other than the current one. None when `int()`
      cannot read it. */
  function NewId(id: int, req: PaymentUpdate): Option<Option<int>> {
    if !Truthy(req.id) then Some(None)
    else
      match PyIntOf(req.id)
      case IsInt(n) => if n != id then Some(Some(n)) else Some(None)
      case _ => None
  }

  /** `update_payment` as a whole. */
  function UpdateEffect(payments: map<int, Payment>, lastId: int, id: int, req: PaymentUpdate)
    : (Reply, map<int, Payment>, int)
  {
    if id !in payments then (Failed(404, NotFound), payments, lastId)
    else
      match NewId(id, req)
      case None => (Failed(400, InvalidFormat), payments, lastId)
      case Some(None) => (Done("Payment updated"), payments[id := WithFields(payments[id], req)], lastId)
      case Some(Some(nid)) =>
        if nid <= 0 then (Failed(400, IdNotPositive), payments, lastId)
        else if nid in payments then (Failed(409, NewIdTaken), payments, lastId)
        else (Moved("Payment updated with new ID", nid), (payments - {id})[nid := WithFields(payments[id], req)],
              if nid > lastId then nid else lastId)
  }

  /** The `payments` table and its identity counter. */
  class PaymentStore {
    var payments: map<int, Payment>
    var lastId: int

    ghost predicate Valid()
      reads this
    {
      IdsBelow(payments, lastId)
    }

    constructor ()
      ensures payments == map[] && lastId == 0 && Valid()
    {
      payments := map[];
      lastId := 0;
    }

    /** `make_payment`. */
    method MakePayment(req: PaymentRequest, totals: map<int, int>) returns (reply: Reply)
      requires Valid()
      modifies this
      ensures Valid()
      ensures (reply, payments, lastId) == MakeEffect(old(payments), old(lastId), req, totals)
    {
      MakeKeepsIdsBelow(payments, lastId, req, totals);
      var checked := MakeCheck(req, totals);
      if checked.Reject? {
        return checked.reply;
      }
      var row := checked.value;
      if !Truthy(req.id) {
        lastId := lastId + 1;
        payments := payments[lastId := row];
        return Created("Payment created", lastId, row.amount, row.status);
      }
      var conv := PyIntOf(req.id);
      if !conv.IsInt? {
        return Failed(400, InvalidFormat);
      }
      var cid := conv.n;
      if cid <= 0 {
        return Failed(400, IdNotPositive);
      }
      if cid in payments {
        return Failed(409, IdTaken);
      }
      payments := payments[cid := row];
      if cid > lastId {
        lastId := cid;
      }
      reply := Created("Payment created with custom ID", cid, row.amount, row.status);
    }

    /** `update_payment`: in place, field by field, or by deleting the row and
        inserting it again under the new id. */
    method UpdatePayment(id: int, req: PaymentUpdate) returns (reply: Reply)
      requires Valid()
      modifies this
      ensures Valid()
      ensures (reply, payments, lastId) == UpdateEffect(old(payments), old(lastId), id, req)
    {
      UpdateKeepsIdsBelow(payments, lastId, id, req);
      if id !in payments {
        return Failed(404, NotFound);
      }
      var target := NewId(id, req);
      if target.None? {
        return Failed(400, InvalidFormat);
      }
      if target.value.Some? {
        var nid := target.value.value;
        if nid <= 0 {
          return Failed(400, IdNotPositive);
        }
        if nid in payments {
          return Failed(409, NewIdTaken);
        }
        var moved := WithFields(payments[id], req);
        payments := payments - {id};
        payments := payments[nid := moved];
        if nid > lastId {
          lastId := nid;
        }
        return Moved("Payment updated with new ID", nid);
      }
      var p := payments[id];
      if req.orderId.Some? {
        p := p.(orderId := req.orderId.value);
      }
      if req.amount.Some? {
        p := p.(amount := req.amount.value);
      }
      if req.paymentMethod.Some? {
        p := p.(paymentMethod := req.paymentMethod.value);
      }
      if req.status.Some? {
        p := p.(status := req.status.value);
      }
      payments := payments[id := p];
      reply := Done("Payment updated");
    }

    /** `delete_payment`. */
    method DeletePayment(id: int) returns (reply: Reply)
      requires Valid()
      modifies this
      ensures Valid() && lastId == old(lastId)
      ensures id !in old(payments) ==> reply == Failed(404, NotFound) && payments == old(payments)
      ensures id in old(payments) ==> reply == Done("Payment deleted") && payments == old(payments) - {id}
    {
      if id !in payments {
        return Failed(404, NotFound);
      }
      payments := payments - {id};
      reply := Done("Payment deleted");
    }
  }

  // ---- Properties of make_payment ----

  /** A payment passes the checks exactly when its order id is a positive
      integer, it names a method, and the orders service reports a positive
      total for the order; the row then carries that total as its amount and
      "Pending" unless the request names a status. */
  lemma MakeCheckPassIff(req: PaymentRequest, totals: map<int, int>)
    ensures MakeCheck(req, totals).Pass? <==>
      req.orderId.Some? && PyIntOf(req.orderId.value).IsInt? && PyIntOf(req.orderId.value).n > 0 &&
      req.paymentMethod.Some? && req.paymentMethod.value.Some? && req.paymentMethod.value.value != "" &&
      OrderTotalOf(totals, PyIntOf(req.orderId.value).n) > 0
    ensures MakeCheck(req, totals).Pass? ==>
      var oid := PyIntOf(req.orderId.value).n;
      var row := MakeCheck(req, totals).value;
      row.orderId == oid && row.amount == OrderTotalOf(totals, oid) && row.amount > 0 &&
      row.paymentMethod == req.paymentMethod.value.value &&
      row.status == (if req.status.Some? then req.status.value else DefaultStatus)
  {
    if req.orderId.Some? {
      var conv := PyIntOf(req.orderId.value);
      if conv.IsInt? && req.paymentMethod.Some? {
        var oid := conv.n;
        assert MakeCheck(req, totals).Pass? <==>
          oid > 0 && req.paymentMethod.value.Some? && req.paymentMethod.value.value != "" && OrderTotalOf(totals, oid) > 0;
      }
    }
  }

  /** A readable order id that is zero or below, an empty method, and an
      order without a positive total are each refused with 400, in that order. */
  lemma MakeCheckRefusals(req: PaymentRequest, totals: map<int, int>)
    requires req.orderId.Some? && PyIntOf(req.orderId.value).IsInt? && req.paymentMethod.Some?
    ensures var oid := PyIntOf(req.orderId.value).n;
      if oid <= 0 then MakeCheck(req, totals) == Reject(Failed(400, OrderIdNotPositive))
      else if req.paymentMethod.value.None? || req.paymentMethod.value.value == "" then MakeCheck(req, totals) == Reject(Failed(400, MethodRequired))
      else if OrderTotalOf(totals, oid) <= 0 then MakeCheck(req, totals) == Reject(Failed(400, NoOrderTotal))
      else MakeCheck(req, totals).Pass?
  {
  }

  /** A given id that is zero or below is refused with 400, a taken one with
      409; neither changes the store. */
  lemma InsertRefusesBadCustomId(payments: map<int, Payment>, lastId: int, row: Payment, customId: Json)
    requires Truthy(customId) && PyIntOf(customId).IsInt?
    requires PyIntOf(customId).n <= 0 || PyIntOf(customId).n in payments
    ensures var e := InsertEffect(payments, lastId, row, customId);
      e.1 == payments && e.2 == lastId &&
      e.0 == (if PyIntOf(customId).n <= 0 then Failed(400, IdNotPositive) else Failed(409, IdTaken))
  {
  }

  /** A created payment takes an id no payment had, the given one when a
      custom id was asked for, and leaves every other payment as it was. */
  lemma InsertStoresRow(payments: map<int, Payment>, lastId: int, row: Payment, customId: Json)
    requires IdsBelow(payments, lastId)
    requires InsertEffect(payments, lastId, row, customId).0.Created?
    ensures var e := InsertEffect(payments, lastId, row, customId);
      e.0.id !in payments && e.1 == payments[e.0.id := row] &&
      e.0.amount == row.amount && e.0.status == row.status &&
      (Truthy(customId) ==> e.0.id == PyIntOf(customId).n)
  {
  }

  /** Whatever the request, the identity counter stays above every stored id. */
  lemma MakeKeepsIdsBelow(payments: map<int, Payment>, lastId: int, req: PaymentRequest, totals: map<int, int>)
    requires IdsBelow(payments, lastId)
    ensures var e := MakeEffect(payments, lastId, req, totals); IdsBelow(e.1, e.2)
  {
    var checked := MakeCheck(req, totals);
    if checked.Pass? {
      InsertKeepsIdsBelow(payments, lastId, checked.value, req.id);
    }
  }

  lemma InsertKeepsIdsBelow(payments: map<int, Payment>, lastId: int, row: Payment, customId: Json)
    requires IdsBelow(payments, lastId)
    ensures var e := InsertEffect(payments, lastId, row, customId); IdsBelow(e.1, e.2)
  {
    var e := InsertEffect(payments, lastId, row, customId);
    if Truthy(customId) {
      var conv := PyIntOf(customId);
      if conv.IsInt? && conv.n > 0 && conv.n !in payments {
        assert e.1 == payments[conv.n := row];
      } else {
        assert e.1 == payments;
      }
    }
  }

  /** A refused payment changes nothing. */
  lemma MakeFailureKeepsStore(payments: map<int, Payment>, lastId: int, req: PaymentRequest, totals: map<int, int>)
    requires MakeEffect(payments, lastId, req, totals).0.Failed?
    ensures var e := MakeEffect(payments, lastId, req, totals); e.1 == payments && e.2 == lastId
  {
  }

  /** Deleting a payment just created gives back the store it was created in. */
  lemma DeleteUndoesMake(payments: map<int, Payment>, lastId: int, req: PaymentRequest, totals: map<int, int>)
    requires IdsBelow(payments, lastId)
    requires MakeEffect(payments, lastId, req, totals).0.Created?
    ensures var e := MakeEffect(payments, lastId, req, totals); e.1 - {e.0.id} == payments
  {
    var row := MakeCheck(req, totals).value;
    InsertStoresRow(payments, lastId, row, req.id);
    var e := MakeEffect(payments, lastId, req, totals);
    assert e.1 - {e.0.id} == payments;
  }

  // ---- Properties of update_payment ----

  /** An unknown id is answered 404 and changes nothing. */
  lemma UpdateUnknownId(payments: map<int, Payment>, lastId: int, id: int, req: PaymentUpdate)
    requires id !in payments
    ensures UpdateEffect(payments, lastId, id, req) == (Failed(404, NotFound), payments, lastId)
  {
  }

  /** Without a new id, the payment keeps its id and each field is replaced
      exactly when the request gives it; the other payments stay as they were. */
  lemma UpdateInPlace(payments: map<int, Payment>, lastId: int, id: int, req: PaymentUpdate)
    requires id in payments && NewId(id, req) == Some(None)
    ensures var e := UpdateEffect(payments, lastId, id, req);
      e.0 == Done("Payment updated") && e.2 == lastId &&
      e.1.Keys == payments.Keys &&
      (forall k :: k in payments && k != id ==> e.1[k] == payments[k]) &&
      (req.orderId.None? ==> e.1[id].orderId == payments[id].orderId) &&
      (req.amount.None? ==> e.1[id].amount == payments[id].amount) &&
      (req.paymentMethod.None? ==> e.1[id].paymentMethod == payments[id].paymentMethod) &&
      (req.status.None? ==> e.1[id].status == payments[id].status) &&
      (req.orderId.Some? ==> e.1[id].orderId == req.orderId.value) &&
      (req.amount.Some? ==> e.1[id].amount == req.amount.value) &&
      (req.paymentMethod.Some? ==> e.1[id].paymentMethod == req.paymentMethod.value) &&
      (req.status.Some? ==> e.1[id].status == req.status.value)
  {
  }

  /** Moving to a new id: zero or below is refused with 400, a taken id with
      409; otherwise the old id is gone, the new one holds the row with the
      request's fields over the old ones, and no other payment changes. */
  lemma UpdateRenames(payments: map<int, Payment>, lastId: int, id: int, req: PaymentUpdate, nid: int)
    requires id in payments && NewId(id, req) == Some(Some(nid))
    ensures var e := UpdateEffect(payments, lastId, id, req);
      if nid <= 0 then e == (Failed(400, IdNotPositive), payments, lastId)
      else if nid in payments then e == (Failed(409, NewIdTaken), payments, lastId)
      else
        e.0 == Moved("Payment updated with new ID", nid) &&
        id !in e.1 && nid in e.1 && e.1[nid] == WithFields(payments[id], req) &&
        e.1.Keys == payments.Keys - {id} + {nid} &&
        (forall k :: k in payments && k != id ==> e.1[k] == payments[k])
  {
  }

  /** The request asks for a move exactly when its id is truthy and reads as another integer. */
  lemma NewIdMeaning(id: int, req: PaymentUpdate)
    ensures NewId(id, req).Some? && NewId(id, req).value.Some? <==>
      Truthy(req.id) && PyIntOf(req.id).IsInt? && PyIntOf(req.id).n != id
    ensures NewId(id, req).None? <==> Truthy(req.id) && !PyIntOf(req.id).IsInt?
  {
  }

  /** Resending the id a payment already has updates it in place. */
  lemma SameIdUpdatesInPlace(payments: map<int, Payment>, lastId: int, id: int, req: PaymentUpdate)
    requires id in payments && req.id == JInt(id)
    ensures UpdateEffect(payments, lastId, id, req) ==
      (Done("Payment updated"), payments[id := WithFields(payments[id], req)], lastId)
  {
  }

  /** Applying the same in-place update twice is applying it once. */
  lemma WithFieldsIdempotent(p: Payment, req: PaymentUpdate)
    ensures WithFields(WithFields(p, req), req) == WithFields(p, req)
  {
  }

  /** Whatever the request, the identity counter stays above every stored id. */
  lemma UpdateKeepsIdsBelow(payments: map<int, Payment>, lastId: int, id: int, req: PaymentUpdate)
    requires IdsBelow(payments, lastId)
    ensures var e := UpdateEffect(payments, lastId, id, req); IdsBelow(e.1, e.2)
  {
  }

  // ---- Properties of list_payments ----

  /** A blank search lists every payment. */
  lemma BlankSearchListsAll(payments: map<int, Payment>, search: string)
    requires Strip(search) == ""
    ensures ListPayments(payments, search) == payments
  {
  }

  /** A search that reads as an integer keeps exactly the payments with that
      id or that order id. */
  lemma NumericSearch(payments: map<int, Payment>, search: string, n: int)
    requires PyInt(Strip(search)) == Some(n)
    ensures forall id :: id in ListPayments(payments, search) <==>
      id in payments && (id == n || payments[id].orderId == n)
  {
    assert Strip(search) != "";
  }

  /** Any other non-blank search keeps exactly the payments whose method or
      status contains it. */
  lemma TextSearch(payments: map<int, Payment>, search: string)
    requires Strip(search) != "" && PyInt(Strip(search)).None?
    ensures forall id :: id in ListPayments(payments, search) <==>
      id in payments && (Contains(payments[id].paymentMethod, Strip(search)) || Contains(payments[id].status, Strip(search)))
  {
  }
}
