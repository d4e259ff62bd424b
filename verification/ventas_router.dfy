/** The sale endpoints' own rules: the response shape with its debt snapshot,
    who may view, edit or delete a sale, and which sales a listing returns
    and in what order. */
module VentasRouter {
  import opened Wrappers
  import opened Errors
  import opened Domain
  import opened Ventas
  import Ledger

  /** Who is calling: the authenticated user's key and role. */
  datatype Actor = Actor(id: int, role: UserRole)

  datatype VentaItemResponse = VentaItemResponse(
    productId: int,
    productName: Option<string>,
    quantityKg: real,
    quantityJavas: real,
    conversionFactor: real,
    pricePerKg: real,
    subtotal: real)

  datatype VentaResponse = VentaResponse(
    id: int,
    date: Timestamp,
    vtype: VentaType,
    clientId: Option<int>,
    clientName: Option<string>,
    userId: int,
    userName: Option<string>,
    totalAmount: real,
    isPrinted: bool,
    items: seq<VentaItemResponse>,
    previousDebt: Option<real>,
    newDebt: Option<real>)

  const ForbiddenView: HttpError := HttpError(403, "No tienes permiso para ver esta venta")
  const ForbiddenEdit: HttpError := HttpError(403, "No tienes permiso para editar esta venta")
  const ForbiddenDelete: HttpError :=
    HttpError(403, "Solo los administradores pueden eliminar ventas de días anteriores")

  // ---------------------------------------------------------------------
  // Response formatting

  /** One response line: the stored line with its product's name, if the
      product still exists. */
  function FormatItem(s: Store, it: VentaItem): (r: VentaItemResponse)
    ensures r.productName.Some? <==> it.productId in s.products
    ensures it.productId in s.products ==> r.productName == Some(s.products[it.productId].name)
    ensures && r.productId == it.productId && r.quantityKg == it.quantityKg && r.quantityJavas == it.quantityJavas
            && r.conversionFactor == it.conversionFactor && r.pricePerKg == it.pricePerKg && r.subtotal == it.subtotal
  {
    VentaItemResponse(
      it.productId,
      if it.productId in s.products then Some(s.products[it.productId].name) else None,
      it.quantityKg, it.quantityJavas, it.conversionFactor, it.pricePerKg, it.subtotal)
  }

  /** The lines as the response lists them, one per stored line, in order. */
  function FormatItems(s: Store, items: seq<VentaItem>): (r: seq<VentaItemResponse>)
    ensures |r| == |items|
    ensures forall i :: 0 <= i < |items| ==> r[i] == FormatItem(s, items[i])
  {
    seq(|items|, i requires 0 <= i < |items| => FormatItem(s, items[i]))
  }

  /** `_format_venta_response`. The lines are the sale's own, one response
      line each and in table order. A credit sale whose customer exists shows
      that customer's debt before and after it: the debt now, less the sale's
      total, and the debt now. Every other sale shows neither. */
  function FormatVentaResponse(s: Store, id: int): (r: VentaResponse)
    requires id in s.ventas
    ensures r.id == id && r.date == s.ventas[id].date && r.vtype == s.ventas[id].vtype
    ensures r.totalAmount == s.ventas[id].totalAmount && r.userId == s.ventas[id].userId
    ensures r.clientId == s.ventas[id].clientId && r.isPrinted == s.ventas[id].isPrinted
    ensures r.userName == if s.ventas[id].userId in s.users then Some(s.users[s.ventas[id].userId].username) else None
    ensures |r.items| == |ItemsOfVenta(s.ventaItems, id)|
    ensures forall i :: 0 <= i < |r.items| ==>
              var it := ItemsOfVenta(s.ventaItems, id)[i];
              && r.items[i].productId == it.productId
              && r.items[i].quantityKg == it.quantityKg
              && r.items[i].quantityJavas == it.quantityJavas
              && r.items[i].conversionFactor == it.conversionFactor
              && r.items[i].pricePerKg == it.pricePerKg
              && r.items[i].subtotal == it.subtotal
    ensures forall i :: 0 <= i < |r.items| ==> r.items[i] == FormatItem(s, ItemsOfVenta(s.ventaItems, id)[i])
    ensures r.clientName.Some? <==> s.ventas[id].clientId.Some? && s.ventas[id].clientId.value in s.clients
    ensures r.clientName.Some? ==> r.clientName.value == s.clients[s.ventas[id].clientId.value].name
    ensures r.previousDebt.Some? <==> r.clientName.Some? && s.ventas[id].vtype == Pedido
    ensures r.newDebt.Some? <==> r.previousDebt.Some?
    ensures r.newDebt.Some? ==>
              var debt := s.clients[s.ventas[id].clientId.value].currentDebt;
              && r.newDebt.value == debt
              && r.previousDebt.value + s.ventas[id].totalAmount == debt
  {
    var v := s.ventas[id];
    var client := if v.clientId.Some? && v.clientId.value in s.clients then Some(s.clients[v.clientId.value]) else None;
    var snapshot := client.Some? && v.vtype == Pedido;
    VentaResponse(
      id, v.date, v.vtype, v.clientId,
      if client.Some? then Some(client.value.name) else None,
      v.userId,
      if v.userId in s.users then Some(s.users[v.userId].username) else None,
      v.totalAmount, v.isPrinted,
      FormatItems(s, ItemsOfVenta(s.ventaItems, id)),
      if snapshot then Some(client.value.currentDebt - v.totalAmount) else None,
      if snapshot then Some(client.value.currentDebt) else None)
  }

  /** The snapshot is recomputed on every read, not stored with the sale: once
      the customer pays off their whole debt, a credit sale of theirs reports
      a previous debt of minus its total and a new debt of zero. */
  lemma {:induction false} PaidOffSaleSnapshot(s: Store, id: int, amount: real, notes: Option<string>)
    requires id in s.ventas && s.ventas[id].vtype == Pedido
    requires s.ventas[id].clientId.Some? && s.ventas[id].clientId.value in s.clients
    requires amount >= s.clients[s.ventas[id].clientId.value].currentDebt
    ensures var c := s.ventas[id].clientId.value;
            && Ledger.CreatePayment(s, c, amount, notes).Success?
            && id in Ledger.CreatePayment(s, c, amount, notes).value.ventas
            && FormatVentaResponse(Ledger.CreatePayment(s, c, amount, notes).value, id).previousDebt
               == Some(-s.ventas[id].totalAmount)
            && FormatVentaResponse(Ledger.CreatePayment(s, c, amount, notes).value, id).newDebt == Some(0.0)
  {
  }

  /** A freshly created sale's lines are exactly the lines it appended: no
      older line can carry the new key. */
  lemma {:induction false} NewSaleItems(s: Store, lines: seq<VentaItem>, id: int)
    requires forall i :: 0 <= i < |s.ventaItems| ==> s.ventaItems[i].ventaId < id
    requires forall i :: 0 <= i < |lines| ==> lines[i].ventaId == id
    ensures ItemsOfVenta(s.ventaItems + lines, id) == lines
  {
    var p := (it: VentaItem) => it.ventaId == id;
    FilterAppend(s.ventaItems, lines, p);
    FilterNone(s.ventaItems, p);
    FilterAll(lines, p);
  }

  /** The response to a successful `create_venta`: its lines are the ones just
      recorded, and a credit sale reports the customer's debt before the sale
      as the previous debt and that debt plus the sale's total as the new one.
      A cash sale reports no debt at all, even with a customer. */
  lemma {:induction false} CreatedSaleResponse(
    s: Store, userId: int, vtype: VentaType, inputs: seq<VentaItemInput>, clientId: Option<int>, now: Timestamp,
    t: Store)
    requires Valid(s)
    requires CreateVenta(s, userId, vtype, inputs, clientId, now) == Success(t)
    ensures s.nextVentaId in t.ventas
    ensures FormatVentaResponse(t, s.nextVentaId).items == FormatItems(t, t.ventaItems[|s.ventaItems|..])
    ensures vtype == Pedido ==>
              && clientId.Some? && clientId.value in s.clients
              && FormatVentaResponse(t, s.nextVentaId).previousDebt == Some(s.clients[clientId.value].currentDebt)
              && FormatVentaResponse(t, s.nextVentaId).newDebt
                 == Some(s.clients[clientId.value].currentDebt + t.ventas[s.nextVentaId].totalAmount)
    ensures vtype == Caja ==>
              FormatVentaResponse(t, s.nextVentaId).previousDebt.None? && FormatVentaResponse(t, s.nextVentaId).newDebt.None?
  {
    var lines := CommittedLines(s, userId, vtype, inputs, clientId, now);
    RecordedSaleResponse(s, userId, vtype, clientId, now, lines, t);
  }

  /** The same, for the store once a sale with these lines is recorded. */
  lemma {:induction false} RecordedSaleResponse(
    s: Store, userId: int, vtype: VentaType, clientId: Option<int>, now: Timestamp, lines: seq<VentaItem>, t: Store)
    requires Valid(s)
    requires vtype == Pedido ==> clientId.Some? && clientId.value in s.clients
    requires forall i :: 0 <= i < |lines| ==> lines[i].ventaId == s.nextVentaId
    requires t == RecordSale(s, userId, vtype, clientId, now, lines)
    ensures s.nextVentaId in t.ventas
    ensures FormatVentaResponse(t, s.nextVentaId).items == FormatItems(t, t.ventaItems[|s.ventaItems|..])
    ensures vtype == Pedido ==>
              && clientId.Some? && clientId.value in s.clients
              && FormatVentaResponse(t, s.nextVentaId).previousDebt == Some(s.clients[clientId.value].currentDebt)
              && FormatVentaResponse(t, s.nextVentaId).newDebt
                 == Some(s.clients[clientId.value].currentDebt + t.ventas[s.nextVentaId].totalAmount)
    ensures vtype == Caja ==>
              FormatVentaResponse(t, s.nextVentaId).previousDebt.None? && FormatVentaResponse(t, s.nextVentaId).newDebt.None?
  {
    var id := s.nextVentaId;
    NewSaleItems(s, lines, id);
    assert t.ventaItems[|s.ventaItems|..] == lines;
    assert t.ventas[id] == Venta(now, vtype, clientId, userId, TotalAmount(lines), false);
    if vtype == Pedido {
      var c := clientId.value;
      assert t.clients[c].currentDebt == s.clients[c].currentDebt + TotalAmount(lines);
    }
  }

  // ---------------------------------------------------------------------
  // Permissions

  /** Editing and deleting: admins always, anyone else only their own sale
      of the current day. */
  predicate MayModify(actor: Actor, v: Venta, today: int) {
    actor.role == Admin || (DayOf(v.date) == today && v.userId == actor.id)
  }

  /** Viewing one sale: only a seller is restricted, to their own sale of the
      current day. */
  predicate MayView(actor: Actor, v: Venta, today: int) {
    actor.role != Vendedor || (v.userId == actor.id && DayOf(v.date) == today)
  }

  /** `GET /ventas/{id}`: not-found first, then the seller restriction. */
  function GetVentaEndpoint(s: Store, actor: Actor, id: int, today: int): (r: Result<VentaResponse, ApiError>)
    ensures id !in s.ventas ==> r == Failure(App(NotFound("Venta", Some(id))))
    ensures id in s.ventas ==>
              (r.Success? <==> actor.role != Vendedor || (s.ventas[id].userId == actor.id && DayOf(s.ventas[id].date) == today))
    ensures id in s.ventas && r.Failure? ==> r.error == Http(ForbiddenView)
    ensures r.Success? ==> r.value == FormatVentaResponse(s, id)
  {
    if id !in s.ventas then Failure(App(NotFound("Venta", Some(id))))
    else if !MayView(actor, s.ventas[id], today) then Failure(Http(ForbiddenView))
    else Success(FormatVentaResponse(s, id))
  }

  /** `PUT /ventas/{id}`: not-found first, then the edit permission, then the
      service's own checks. */
  function UpdateVentaEndpoint(
    s: Store, actor: Actor, id: int, inputs: seq<VentaItemInput>, clientId: Option<int>, now: Timestamp, today: int)
    : (r: Result<(Store, VentaResponse), ApiError>)
    ensures id !in s.ventas ==> r == Failure(App(NotFound("Venta", Some(id))))
    ensures id in s.ventas && actor.role != Admin && !(DayOf(s.ventas[id].date) == today && s.ventas[id].userId == actor.id)
            ==> r == Failure(Http(ForbiddenEdit))
    ensures id in s.ventas && (actor.role == Admin || (DayOf(s.ventas[id].date) == today && s.ventas[id].userId == actor.id))
            ==> (r.Success? <==> UpdateVenta(s, id, inputs, clientId, now).Success?)
    ensures id in s.ventas && (actor.role == Admin || (DayOf(s.ventas[id].date) == today && s.ventas[id].userId == actor.id))
            && UpdateVenta(s, id, inputs, clientId, now).Failure?
            ==> r == Failure(App(UpdateVenta(s, id, inputs, clientId, now).error))
    ensures r.Success? ==>
              && r.value.0 == UpdateVenta(s, id, inputs, clientId, now).value
              && id in r.value.0.ventas
              && r.value.1 == FormatVentaResponse(r.value.0, id)
  {
    if id !in s.ventas then Failure(App(NotFound("Venta", Some(id))))
    else if !MayModify(actor, s.ventas[id], today) then Failure(Http(ForbiddenEdit))
    else
      match UpdateVenta(s, id, inputs, clientId, now)
      case Failure(e) => Failure(App(e))
      case Success(t) => Success((t, FormatVentaResponse(t, id)))
  }

  /** `DELETE /ventas/{id}`: not-found first, then the same permission as
      editing with its own message, then the service. */
  function DeleteVentaEndpoint(s: Store, actor: Actor, id: int, today: int): (r: Result<Store, ApiError>)
    ensures id !in s.ventas ==> r == Failure(App(NotFound("Venta", Some(id))))
    ensures id in s.ventas ==>
              (r.Success? <==> actor.role == Admin || (DayOf(s.ventas[id].date) == today && s.ventas[id].userId == actor.id))
    ensures id in s.ventas && r.Failure? ==> r.error == Http(ForbiddenDelete)
    ensures r.Success? ==> Success(r.value) == DeleteVenta(s, id)
  {
    if id !in s.ventas then Failure(App(NotFound("Venta", Some(id))))
    else if !MayModify(actor, s.ventas[id], today) then Failure(Http(ForbiddenDelete))
    else
      match DeleteVenta(s, id)
      case Failure(e) => Failure(App(e))
      case Success(t) => Success(t)
  }

  /** Whoever may edit or delete a sale may also view it, and an edit
      rejected for permission leaves the delete rejected for the same reason. */
  lemma {:induction false} ModifierMayView(
    s: Store, actor: Actor, id: int, inputs: seq<VentaItemInput>, clientId: Option<int>, now: Timestamp, today: int)
    requires id in s.ventas
    ensures UpdateVentaEndpoint(s, actor, id, inputs, clientId, now, today) != Failure(Http(ForbiddenEdit)) ==>
              && GetVentaEndpoint(s, actor, id, today).Success?
              && DeleteVentaEndpoint(s, actor, id, today).Success?
    ensures UpdateVentaEndpoint(s, actor, id, inputs, clientId, now, today) == Failure(Http(ForbiddenEdit)) <==>
              DeleteVentaEndpoint(s, actor, id, today) == Failure(Http(ForbiddenDelete))
  {
    if UpdateVentaEndpoint(s, actor, id, inputs, clientId, now, today) != Failure(Http(ForbiddenEdit)) {
      assert MayModify(actor, s.ventas[id], today);
    }
  }

  // ---------------------------------------------------------------------
  // Listing

  /** Query parameters of `GET /ventas`; dates are calendar days. */
  datatype ListQuery = ListQuery(
    date: Option<int>,
    startDate: Option<int>,
    endDate: Option<int>,
    clientId: Option<int>,
    vtype: Option<VentaType>,
    skip: nat,
    limit: nat)

  /** The admin date filter: an exact day wins over a range, a range over a
      single bound, and no date parameter lets every day through. */
  predicate DateFilter(q: ListQuery, day: int) {
    if q.date.Some? then day == q.date.value
    else if q.startDate.Some? && q.endDate.Some? then q.startDate.value <= day <= q.endDate.value
    else if q.startDate.Some? then q.startDate.value <= day
    else if q.endDate.Some? then day <= q.endDate.value
    else true
  }

  /** Whether sale `v` is among those the listing selects. A seller sees only
      their own sales of the current day; anyone else sees the sales that
      pass the date filter, the customer filter (only when the key is truthy)
      and the type filter. */
  predicate Listed(q: ListQuery, actor: Actor, today: int, v: Venta) {
    if actor.role == Vendedor then DayOf(v.date) == today && v.userId == actor.id
    else
      && DateFilter(q, DayOf(v.date))
      && (!IdTruthy(q.clientId) || v.clientId == q.clientId)
      && (q.vtype.None? || v.vtype == q.vtype.value)
  }

  /** A seller's listing does not depend on any query parameter. */
  lemma {:induction false} SellerIgnoresFilters(q1: ListQuery, q2: ListQuery, actor: Actor, today: int, v: Venta)
    requires actor.role == Vendedor
    ensures Listed(q1, actor, today, v) <==> Listed(q2, actor, today, v)
  {
  }

  /** An exact date makes the range bounds irrelevant; with no exact date a
      complete range makes neither bound act alone. */
  lemma {:induction false} DatePrecedence(q: ListQuery, day: int)
    ensures q.date.Some? ==>
              (DateFilter(q, day) <==> DateFilter(q.(startDate := None, endDate := None), day))
    ensures q.date.None? && q.startDate.Some? && q.endDate.Some? ==>
              (DateFilter(q, day) <==> q.startDate.value <= day && day <= q.endDate.value)
  {
  }

  predicate Distinct(ids: seq<int>) {
    forall i, j :: 0 <= i < j < |ids| ==> ids[i] != ids[j]
  }

  /** Every key names a sale and the sales run from newest to oldest. */
  predicate NewestFirst(ventas: map<int, Venta>, ids: seq<int>) {
    && (forall i :: 0 <= i < |ids| ==> ids[i] in ventas)
    && (forall i, j :: 0 <= i < j < |ids| ==> ventas[ids[i]].date >= ventas[ids[j]].date)
  }

  /** Inserts sale `k` into a newest-first run of sales, after every sale at
      least as new. */
  function InsertByDate(ventas: map<int, Venta>, ids: seq<int>, k: int): (r: seq<int>)
    requires k in ventas && NewestFirst(ventas, ids)
    ensures NewestFirst(ventas, r)
    ensures |r| == |ids| + 1
    ensures forall x :: x in r <==> x in ids || x == k
  {
    if |ids| == 0 then [k]
    else if ventas[ids[0]].date < ventas[k].date then [k] + ids
    else
      var rest := InsertByDate(ventas, ids[1..], k);
      assert forall x :: x in ids[1..] ==> x in ids;
      assert forall i :: 0 <= i < |rest| ==> ventas[ids[0]].date >= ventas[rest[i]].date by {
        forall i | 0 <= i < |rest|
          ensures ventas[ids[0]].date >= ventas[rest[i]].date
        {
          assert rest[i] in rest;
        }
      }
      [ids[0]] + rest
  }

  /** Inserting a sale not yet in the run keeps every key in it once. */
  lemma {:induction false} InsertKeepsDistinct(ventas: map<int, Venta>, ids: seq<int>, k: int)
    requires k in ventas && NewestFirst(ventas, ids)
    requires Distinct(ids) && k !in ids
    ensures Distinct(InsertByDate(ventas, ids, k))
  {
    if |ids| > 0 && ventas[ids[0]].date >= ventas[k].date {
      var tail := ids[1..];
      assert forall i, j :: 0 <= i < j < |tail| ==> tail[i] == ids[i + 1] && tail[j] == ids[j + 1];
      InsertKeepsDistinct(ventas, tail, k);
      var rest := InsertByDate(ventas, tail, k);
      assert ids[0] !in tail by {
        forall i | 0 <= i < |tail|
          ensures tail[i] != ids[0]
        {
          assert tail[i] == ids[i + 1];
        }
      }
      assert ids[0] !in rest;
      var r := [ids[0]] + rest;
      assert InsertByDate(ventas, ids, k) == r;
      forall i, j | 0 <= i < j < |r|
        ensures r[i] != r[j]
      {
        if i == 0 {
          assert r[j] == rest[j - 1];
          assert rest[j - 1] in rest;
        } else {
          assert r[i] == rest[i - 1] && r[j] == rest[j - 1];
        }
      }
    }
  }

  /** A set with no member is the empty set (extensionality, which the
      choice of a key below needs spelled out). */
  lemma {:induction false} NoKeyMeansEmpty(keys: set<int>)
    ensures (forall k :: k !in keys) ==> keys == {}
  {
    if forall k :: k !in keys {
      assert keys == {};
    }
  }

  /** `ids` lists the keys of the sales the listing selects, newest first,
      each once; only the order of sales with equal dates is left open. */
  ghost predicate Selection(s: Store, actor: Actor, q: ListQuery, today: int, ids: seq<int>)
  {
    && (forall k :: k in ids <==> k in s.ventas && Listed(q, actor, today, s.ventas[k]))
    && Distinct(ids)
    && NewestFirst(s.ventas, ids)
  }

  /** The keys of the sales the listing selects, newest first, each once. */
  method SelectVentas(s: Store, actor: Actor, q: ListQuery, today: int) returns (ids: seq<int>)
    ensures forall k :: k in ids <==> k in s.ventas && Listed(q, actor, today, s.ventas[k])
    ensures Distinct(ids)
    ensures NewestFirst(s.ventas, ids)
  {
    var rest := s.ventas.Keys;
    ids := [];
    while rest != {}
      invariant rest <= s.ventas.Keys
      invariant forall k :: k in ids ==> k in s.ventas && k !in rest && Listed(q, actor, today, s.ventas[k])
      invariant forall k :: k in s.ventas && k !in rest && Listed(q, actor, today, s.ventas[k]) ==> k in ids
      invariant Distinct(ids)
      invariant NewestFirst(s.ventas, ids)
      decreases rest
    {
      NoKeyMeansEmpty(rest);
      var k :| k in rest;
      if Listed(q, actor, today, s.ventas[k]) {
        InsertKeepsDistinct(s.ventas, ids, k);
        ids := InsertByDate(s.ventas, ids, k);
      }
      rest := rest - {k};
    }
  }

  /** `OFFSET skip LIMIT limit`: at most `limit` entries, starting at
      position `skip`, and none once `skip` is past the end. */
  function Window<T>(xs: seq<T>, skip: nat, limit: nat): (r: seq<T>)
    ensures |r| <= limit
    ensures skip >= |xs| ==> r == []
    ensures skip < |xs| ==> |r| == if |xs| - skip < limit then |xs| - skip else limit
    ensures forall i :: 0 <= i < |r| ==> skip + i < |xs| && r[i] == xs[skip + i]
  {
    if skip >= |xs| then []
    else if |xs| - skip < limit then xs[skip..]
    else xs[skip..skip + limit]
  }

  /** `GET /ventas`: the selected sales, newest first, windowed by `skip`
      and `limit` (which the framework bounds to 1..100), each formatted. */
  method ListVentas(s: Store, actor: Actor, q: ListQuery, today: int) returns (page: seq<VentaResponse>)
    requires 1 <= q.limit <= 100
    ensures |page| <= q.limit
    ensures forall i :: 0 <= i < |page| ==>
              && page[i].id in s.ventas
              && Listed(q, actor, today, s.ventas[page[i].id])
              && page[i] == FormatVentaResponse(s, page[i].id)
    ensures forall i, j :: 0 <= i < j < |page| ==> page[i].id != page[j].id && page[i].date >= page[j].date
    ensures exists ids :: && Selection(s, actor, q, today, ids)
                          && |page| == |Window(ids, q.skip, q.limit)|
                          && forall i :: 0 <= i < |page| ==>
                               Window(ids, q.skip, q.limit)[i] in s.ventas
                               && page[i] == FormatVentaResponse(s, Window(ids, q.skip, q.limit)[i])
  {
    var ids := SelectVentas(s, actor, q, today);
    var window := Window(ids, q.skip, q.limit);
    page := seq(|window|, i requires 0 <= i < |window| && window[i] in s.ventas => FormatVentaResponse(s, window[i]));
    assert forall i :: 0 <= i < |page| ==> page[i].id == ids[q.skip + i];
    assert Selection(s, actor, q, today, ids);
  }
}
