/** The sale workflow (`create_venta`, `update_venta`, `delete_venta`): line
    pricing, the stock check made before each line, the sale total and the
    credit customer's debt. */
module Ventas {
  import opened Wrappers
  import opened Errors
  import opened Domain
  import opened Calculators
  import opened Stock

  /** One entry of `items_data`; `None` is a key absent from the dictionary. */
  datatype VentaItemInput = VentaItemInput(productId: Option<int>, quantityKg: Option<real>, pricePerKg: Option<real>)

  const MsgClientRequired: string := "Las ventas a crédito requieren un cliente"
  const MsgNoProducts: string := "Debe incluir al menos un producto"

  /** Sum of the line subtotals. */
  function TotalAmount(lines: seq<VentaItem>): real {
    Sum(lines, (it: VentaItem) => it.subtotal)
  }

  /** The store as the stock query for a line sees it: the session flushes the
      lines of the same sale that were added before it. */
  function WithLines(s: Store, lines: seq<VentaItem>): (t: Store)
    ensures t.products == s.products && t.ingresoItems == s.ingresoItems
    ensures t.ventaItems == s.ventaItems + lines
  {
    s.(ventaItems := s.ventaItems + lines)
  }

  /** Adds `amount` to the debt of customer `cid`, if that customer exists. */
  function ChargeDebt(clients: map<int, Client>, cid: Option<int>, amount: real): (r: map<int, Client>)
    ensures r.Keys == clients.Keys
    ensures forall c :: c in clients && Some(c) != cid ==> r[c] == clients[c]
    ensures cid.Some? && cid.value in clients ==>
              r[cid.value] == clients[cid.value].(currentDebt := clients[cid.value].currentDebt + amount)
  {
    if cid.Some? && cid.value in clients then
      clients[cid.value := clients[cid.value].(currentDebt := clients[cid.value].currentDebt + amount)]
    else clients
  }

  /** Takes `amount` off the debt of customer `cid`, floored at zero, if that
      customer exists. */
  function ReverseDebt(clients: map<int, Client>, cid: Option<int>, amount: real): (r: map<int, Client>)
    ensures r.Keys == clients.Keys
    ensures forall c :: c in clients && Some(c) != cid ==> r[c] == clients[c]
    ensures cid.Some? && cid.value in clients ==>
              r[cid.value] == clients[cid.value].(currentDebt := ClampedSub(clients[cid.value].currentDebt, amount))
  {
    if cid.Some? && cid.value in clients then
      clients[cid.value := clients[cid.value].(currentDebt := ClampedSub(clients[cid.value].currentDebt, amount))]
    else clients
  }

  /** Reversing a charge restores the customer's debt exactly, provided that
      debt was not negative to begin with (the floor at zero never bites). */
  lemma {:induction false} ChargeThenReverseRestores(clients: map<int, Client>, cid: Option<int>, amount: real)
    requires cid.Some? && cid.value in clients ==> clients[cid.value].currentDebt >= 0.0
    requires amount >= 0.0
    ensures ReverseDebt(ChargeDebt(clients, cid, amount), cid, amount) == clients
  {
    if cid.Some? && cid.value in clients {
      var c := cid.value;
      var d := clients[c].currentDebt;
      assert ClampedSub(d + amount, amount) == d;
      var back := ReverseDebt(ChargeDebt(clients, cid, amount), cid, amount);
      assert back[c] == clients[c];
      assert back.Keys == clients.Keys;
      assert forall k :: k in back ==> back[k] == clients[k];
    }
  }

  /** The stored line `it` of sale `ventaId` is the calculator's result for
      `input`, priced with the product's own conversion factor. */
  predicate LineFor(s: Store, ventaId: int, input: VentaItemInput, it: VentaItem) {
    && input.productId == Some(it.productId)
    && it.productId in s.products
    && it.ventaId == ventaId
    && CalculateVentaItem(
         input.quantityKg.GetOr(0.0), s.products[it.productId].conversionFactor, input.pricePerKg.GetOr(0.0))
       == Success(CalculatedVentaItem(it.quantityKg, it.quantityJavas, it.conversionFactor, it.pricePerKg, it.subtotal))
  }

  /** Validates, stock-checks (when `checkStock`) and prices line `idx`. The
      stock check comes before the calculator's own checks. */
  function BuildVentaItem(s: Store, ventaId: int, input: VentaItemInput, idx: nat, checkStock: bool)
    : (r: Result<VentaItem, AppError>)
    ensures !IdTruthy(input.productId) ==> r == Failure(ProductRequired(idx))
    ensures IdTruthy(input.productId) && input.productId.value !in s.products ==>
              r == Failure(NotFound("Producto", input.productId))
    ensures IdTruthy(input.productId) && input.productId.value in s.products && checkStock
            && input.quantityKg.GetOr(0.0) > AvailableKg(s, input.productId.value) ==>
              r == Failure(StockInsuficiente(
                     s.products[input.productId.value].name,
                     AvailableKg(s, input.productId.value),
                     input.quantityKg.GetOr(0.0)))
    ensures IdTruthy(input.productId) && input.productId.value in s.products
            && (!checkStock || input.quantityKg.GetOr(0.0) <= AvailableKg(s, input.productId.value)) ==>
              var costs := CalculateVentaItem(
                input.quantityKg.GetOr(0.0), s.products[input.productId.value].conversionFactor,
                input.pricePerKg.GetOr(0.0));
              (r.Failure? <==> costs.Failure?) && (r.Failure? ==> r.error == costs.error)
    ensures r.Success? ==> LineFor(s, ventaId, input, r.value)
    ensures r.Success? && checkStock ==> r.value.quantityKg <= AvailableKg(s, r.value.productId)
    ensures r.Success? ==> r.value.quantityKg > 0.0 && r.value.subtotal > 0.0
  {
    var kg := input.quantityKg.GetOr(0.0);
    var price := input.pricePerKg.GetOr(0.0);
    :- Need(IdTruthy(input.productId), ProductRequired(idx));
    var pid := input.productId.value;
    var product :- Get(s.products, pid, NotFound("Producto", input.productId));
    var _ :- if checkStock then ValidateStockDisponible(s, pid, kg) else Success(true);
    var line :- CalculateVentaItem(kg, product.conversionFactor, price);
    Success(VentaItem(ventaId, pid, line.quantityKg, line.quantityJavas, line.conversionFactor,
                      line.pricePerKg, line.subtotal))
  }

  /** Builds the lines after `acc` in input order, each checked against the
      store holding the lines built before it; the first failing line aborts. */
  function BuildVentaItems(
    s: Store, ventaId: int, inputs: seq<VentaItemInput>, acc: seq<VentaItem>, checkStock: bool)
    : (r: Result<seq<VentaItem>, AppError>)
    requires |acc| <= |inputs|
    ensures r.Success? ==> |r.value| == |inputs| && r.value[..|acc|] == acc
    ensures r.Success? ==>
              forall k :: |acc| <= k < |inputs| ==>
                BuildVentaItem(WithLines(s, r.value[..k]), ventaId, inputs[k], k, checkStock) == Success(r.value[k])
    decreases |inputs| - |acc|
  {
    if |acc| == |inputs| then Success(acc)
    else
      var it :- BuildVentaItem(WithLines(s, acc), ventaId, inputs[|acc|], |acc|, checkStock);
      var r := BuildVentaItems(s, ventaId, inputs, acc + [it], checkStock);
      if r.Success? then
        assert r.value[..|acc|] == (r.value[..|acc| + 1])[..|acc|];
        r
      else r
  }

  /** Facts about the lines of a successful build, one line at a time. */
  lemma {:induction false} BuiltLines(s: Store, ventaId: int, inputs: seq<VentaItemInput>, checkStock: bool, lines: seq<VentaItem>)
    requires BuildVentaItems(s, ventaId, inputs, [], checkStock) == Success(lines)
    ensures |lines| == |inputs|
    ensures forall k :: 0 <= k < |lines| ==> LineFor(s, ventaId, inputs[k], lines[k])
    ensures forall k :: 0 <= k < |lines| ==> lines[k].ventaId == ventaId
    ensures forall k :: 0 <= k < |lines| ==> lines[k].quantityKg > 0.0 && lines[k].subtotal > 0.0
    ensures checkStock ==>
              forall k :: 0 <= k < |lines| ==>
                lines[k].quantityKg <= AvailableKg(WithLines(s, lines[..k]), lines[k].productId)
  {
    forall k | 0 <= k < |lines|
      ensures LineFor(s, ventaId, inputs[k], lines[k])
      ensures lines[k].quantityKg > 0.0 && lines[k].subtotal > 0.0
      ensures checkStock ==> lines[k].quantityKg <= AvailableKg(WithLines(s, lines[..k]), lines[k].productId)
    {
      assert BuildVentaItem(WithLines(s, lines[..k]), ventaId, inputs[k], k, checkStock) == Success(lines[k]);
    }
  }

  /** A line asking for more kilograms than the store (with the earlier lines
      of the same sale) holds aborts the whole build with the stock error. */
  lemma {:induction false} OversizedLineAborts(
    s: Store, ventaId: int, inputs: seq<VentaItemInput>, acc: seq<VentaItem>)
    requires |acc| < |inputs|
    requires IdTruthy(inputs[|acc|].productId) && inputs[|acc|].productId.value in s.products
    requires inputs[|acc|].quantityKg.GetOr(0.0) > AvailableKg(WithLines(s, acc), inputs[|acc|].productId.value)
    ensures BuildVentaItems(s, ventaId, inputs, acc, true)
         == Failure(StockInsuficiente(
              s.products[inputs[|acc|].productId.value].name,
              AvailableKg(WithLines(s, acc), inputs[|acc|].productId.value),
              inputs[|acc|].quantityKg.GetOr(0.0)))
  {
  }

  /** `p` is what the build yields for the first `|p|` inputs: each line built
      against the store holding the lines before it. */
  ghost predicate BuildsPrefix(
    s: Store, ventaId: int, inputs: seq<VentaItemInput>, checkStock: bool, p: seq<VentaItem>)
  {
    && |p| <= |inputs|
    && forall j :: 0 <= j < |p| ==>
         BuildVentaItem(WithLines(s, p[..j]), ventaId, inputs[j], j, checkStock) == Success(p[j])
  }

  /** Lines that each build against their predecessors are exactly what the
      build returns. */
  lemma {:induction false} BuildVentaItemsAccepts(
    s: Store, ventaId: int, inputs: seq<VentaItemInput>, acc: seq<VentaItem>, checkStock: bool,
    lines: seq<VentaItem>)
    requires |acc| <= |inputs| == |lines| && lines[..|acc|] == acc
    requires BuildsPrefix(s, ventaId, inputs, checkStock, lines)
    ensures BuildVentaItems(s, ventaId, inputs, acc, checkStock) == Success(lines)
    decreases |inputs| - |acc|
  {
    var k := |acc|;
    if k == |inputs| {
      assert acc == lines[..|lines|] == lines;
    } else {
      assert BuildVentaItem(WithLines(s, lines[..k]), ventaId, inputs[k], k, checkStock) == Success(lines[k]);
      assert lines[..k + 1] == acc + [lines[k]];
      BuildVentaItemsAccepts(s, ventaId, inputs, acc + [lines[k]], checkStock, lines);
    }
  }

  /** A failed build has a built prefix whose next line fails with the
      build's error. */
  lemma {:induction false} BuildVentaItemsFailure(
    s: Store, ventaId: int, inputs: seq<VentaItemInput>, acc: seq<VentaItem>, checkStock: bool)
    returns (p: seq<VentaItem>)
    requires |acc| <= |inputs| && BuildsPrefix(s, ventaId, inputs, checkStock, acc)
    requires BuildVentaItems(s, ventaId, inputs, acc, checkStock).Failure?
    ensures BuildsPrefix(s, ventaId, inputs, checkStock, p) && |acc| <= |p| < |inputs|
    ensures BuildVentaItem(WithLines(s, p), ventaId, inputs[|p|], |p|, checkStock)
         == Failure(BuildVentaItems(s, ventaId, inputs, acc, checkStock).error)
    decreases |inputs| - |acc|
  {
    var k := |acc|;
    var first := BuildVentaItem(WithLines(s, acc), ventaId, inputs[k], k, checkStock);
    if first.Failure? {
      p := acc;
    } else {
      var next := acc + [first.value];
      forall j | 0 <= j < |next|
        ensures BuildVentaItem(WithLines(s, next[..j]), ventaId, inputs[j], j, checkStock) == Success(next[j])
      {
        if j < k {
          assert next[..j] == acc[..j];
        } else {
          assert next[..j] == acc;
        }
      }
      p := BuildVentaItemsFailure(s, ventaId, inputs, next, checkStock);
    }
  }

  /** The whole-build outcome: success with exactly the lines that each build
      against their predecessors, otherwise the error of the first line that
      does not build. */
  lemma {:induction false} BuildVentaItemsOutcome(
    s: Store, ventaId: int, inputs: seq<VentaItemInput>, checkStock: bool)
    ensures var r := BuildVentaItems(s, ventaId, inputs, [], checkStock);
            && (r.Success? ==> |r.value| == |inputs| && BuildsPrefix(s, ventaId, inputs, checkStock, r.value))
            && (forall lines :: |lines| == |inputs| && BuildsPrefix(s, ventaId, inputs, checkStock, lines) ==>
                  r == Success(lines))
            && (r.Failure? ==>
                  exists p :: && BuildsPrefix(s, ventaId, inputs, checkStock, p) && |p| < |inputs|
                              && BuildVentaItem(WithLines(s, p), ventaId, inputs[|p|], |p|, checkStock)
                                 == Failure(r.error))
  {
    var r := BuildVentaItems(s, ventaId, inputs, [], checkStock);
    if r.Success? {
      assert forall j :: 0 <= j < |r.value| ==>
        BuildVentaItem(WithLines(s, r.value[..j]), ventaId, inputs[j], j, checkStock) == Success(r.value[j]);
    }
    forall lines | |lines| == |inputs| && BuildsPrefix(s, ventaId, inputs, checkStock, lines)
      ensures r == Success(lines)
    {
      BuildVentaItemsAccepts(s, ventaId, inputs, [], checkStock, lines);
    }
    if r.Failure? {
      var p := BuildVentaItemsFailure(s, ventaId, inputs, [], checkStock);
    }
  }

  /** `create_venta`. The sale gets the next key, the time `now`, the given
      customer and the sum of its line subtotals; a credit sale charges that
      sum to the customer, a cash sale touches no debt. */
  function CreateVenta(
    s: Store, userId: int, vtype: VentaType, inputs: seq<VentaItemInput>, clientId: Option<int>, now: Timestamp)
    : (r: Result<Store, AppError>)
    ensures vtype == Pedido && !IdTruthy(clientId) ==>
              r == Failure(Validation(MsgClientRequired, Some("client_id")))
    ensures (vtype == Caja || IdTruthy(clientId)) && |inputs| == 0 ==>
              r == Failure(Validation(MsgNoProducts, Some("items")))
    ensures (vtype == Caja || IdTruthy(clientId)) && |inputs| > 0
            && IdTruthy(clientId) && clientId.value !in s.clients ==>
              r == Failure(NotFound("Cliente", clientId))
    ensures r.Success? ==> |r.value.ventaItems| == |s.ventaItems| + |inputs|
  {
    var id := s.nextVentaId;
    :- Need(vtype == Caja || IdTruthy(clientId), Validation(MsgClientRequired, Some("client_id")));
    :- Need(|inputs| > 0, Validation(MsgNoProducts, Some("items")));
    :- Need(!IdTruthy(clientId) || clientId.value in s.clients, NotFound("Cliente", clientId));
    var lines :- BuildVentaItems(s, id, inputs, [], true);
    Success(RecordSale(s, userId, vtype, clientId, now, lines))
  }

  /** Past the early checks `create_venta` succeeds exactly when every line
      builds against the earlier lines of the sale, and otherwise fails with
      the error of the first line that does not. */
  lemma {:induction false} CreateVentaOutcome(
    s: Store, userId: int, vtype: VentaType, inputs: seq<VentaItemInput>, clientId: Option<int>, now: Timestamp)
    requires vtype == Caja || IdTruthy(clientId)
    requires |inputs| > 0
    requires !IdTruthy(clientId) || clientId.value in s.clients
    ensures var r := CreateVenta(s, userId, vtype, inputs, clientId, now);
            var id := s.nextVentaId;
            && (forall lines :: |lines| == |inputs| && BuildsPrefix(s, id, inputs, true, lines) ==>
                  r == Success(RecordSale(s, userId, vtype, clientId, now, lines)))
            && (r.Success? ==>
                  exists lines :: && |lines| == |inputs| && BuildsPrefix(s, id, inputs, true, lines)
                                  && r.value == RecordSale(s, userId, vtype, clientId, now, lines))
            && (r.Failure? ==>
                  exists p :: && BuildsPrefix(s, id, inputs, true, p) && |p| < |inputs|
                              && BuildVentaItem(WithLines(s, p), id, inputs[|p|], |p|, true) == Failure(r.error))
  {
    var id := s.nextVentaId;
    var b := BuildVentaItems(s, id, inputs, [], true);
    var r := CreateVenta(s, userId, vtype, inputs, clientId, now);
    BuildVentaItemsOutcome(s, id, inputs, true);
    CreateVentaBuilds(s, userId, vtype, inputs, clientId, now);
    forall lines | |lines| == |inputs| && BuildsPrefix(s, id, inputs, true, lines)
      ensures r == Success(RecordSale(s, userId, vtype, clientId, now, lines))
    {
      assert b == Success(lines);
    }
    if r.Success? {
      assert b.Success? && r.value == RecordSale(s, userId, vtype, clientId, now, b.value);
    } else {
      assert b.Failure? && r.error == b.error;
    }
  }

  /** Past the early checks `create_venta` is the line build followed by the
      commit. */
  lemma {:induction false} CreateVentaBuilds(
    s: Store, userId: int, vtype: VentaType, inputs: seq<VentaItemInput>, clientId: Option<int>, now: Timestamp)
    requires vtype == Caja || IdTruthy(clientId)
    requires |inputs| > 0
    requires !IdTruthy(clientId) || clientId.value in s.clients
    ensures var b := BuildVentaItems(s, s.nextVentaId, inputs, [], true);
            CreateVenta(s, userId, vtype, inputs, clientId, now)
            == if b.Success? then Success(RecordSale(s, userId, vtype, clientId, now, b.value)) else Failure(b.error)
  {
  }

  /** The stock rule: a first line asking for more kilograms than the store
      holds of its product aborts the sale with the stock error. */
  lemma {:induction false} CreateVentaStockShortfall(
    s: Store, userId: int, vtype: VentaType, inputs: seq<VentaItemInput>, clientId: Option<int>, now: Timestamp)
    requires vtype == Caja || IdTruthy(clientId)
    requires |inputs| > 0
    requires !IdTruthy(clientId) || clientId.value in s.clients
    requires IdTruthy(inputs[0].productId) && inputs[0].productId.value in s.products
    requires inputs[0].quantityKg.GetOr(0.0) > AvailableKg(s, inputs[0].productId.value)
    ensures CreateVenta(s, userId, vtype, inputs, clientId, now)
         == Failure(StockInsuficiente(
              s.products[inputs[0].productId.value].name,
              AvailableKg(s, inputs[0].productId.value),
              inputs[0].quantityKg.GetOr(0.0)))
  {
    assert WithLines(s, []) == s by {
      assert s.ventaItems + [] == s.ventaItems;
    }
    OversizedLineAborts(s, s.nextVentaId, inputs, []);
  }

  /** The store once a new sale with these lines is committed. */
  function RecordSale(
    s: Store, userId: int, vtype: VentaType, clientId: Option<int>, now: Timestamp, lines: seq<VentaItem>)
    : (t: Store)
    ensures |t.ventaItems| == |s.ventaItems| + |lines|
  {
    var id := s.nextVentaId;
    var total := TotalAmount(lines);
    s.(
      ventas := s.ventas[id := Venta(now, vtype, clientId, userId, total, false)],
      ventaItems := s.ventaItems + lines,
      clients := if vtype == Pedido then ChargeDebt(s.clients, clientId, total) else s.clients,
      nextVentaId := id + 1)
  }

  /** What a successful `create_venta` leaves behind: the lines appended in
      input order, each within the stock left by the lines before it, a sale
      header under the next key totalling the subtotals, the total charged to
      the customer of a credit sale, and nothing else changed. */
  ghost predicate CreatedSale(
    s: Store, t: Store, userId: int, vtype: VentaType, inputs: seq<VentaItemInput>, clientId: Option<int>,
    now: Timestamp)
    requires |t.ventaItems| == |s.ventaItems| + |inputs|
  {
    var id := s.nextVentaId;
    var lines := t.ventaItems[|s.ventaItems|..];
    && t.ventaItems[..|s.ventaItems|] == s.ventaItems
    && (forall k :: 0 <= k < |inputs| ==> LineFor(s, id, inputs[k], lines[k]))
    && (forall k :: 0 <= k < |inputs| && lines[k].productId in s.products ==>
          lines[k].quantityKg <= AvailableKg(WithLines(s, lines[..k]), lines[k].productId))
    && TotalAmount(lines) > 0.0
    && t.ventas == s.ventas[id := Venta(now, vtype, clientId, userId, TotalAmount(lines), false)]
    && (vtype == Pedido ==>
          clientId.Some? && clientId.value in s.clients && t.clients == ChargeDebt(s.clients, clientId, TotalAmount(lines)))
    && (vtype == Caja ==> t.clients == s.clients)
    && t == s.(ventas := t.ventas, ventaItems := t.ventaItems, clients := t.clients, nextVentaId := id + 1)
  }

  /** A successful `create_venta` leaves behind exactly the sale it describes. */
  lemma {:induction false} CreateVentaRecordsSale(
    s: Store, userId: int, vtype: VentaType, inputs: seq<VentaItemInput>, clientId: Option<int>, now: Timestamp,
    t: Store)
    requires CreateVenta(s, userId, vtype, inputs, clientId, now) == Success(t)
    ensures |t.ventaItems| == |s.ventaItems| + |inputs|
    ensures CreatedSale(s, t, userId, vtype, inputs, clientId, now)
  {
    var lines := CommittedLines(s, userId, vtype, inputs, clientId, now);
    CreatedSaleHolds(s, userId, vtype, inputs, clientId, now, lines);
  }

  lemma {:induction false} CreatedSaleHolds(
    s: Store, userId: int, vtype: VentaType, inputs: seq<VentaItemInput>, clientId: Option<int>,
    now: Timestamp, lines: seq<VentaItem>)
    requires vtype == Caja || IdTruthy(clientId)
    requires !IdTruthy(clientId) || clientId.value in s.clients
    requires BuildVentaItems(s, s.nextVentaId, inputs, [], true) == Success(lines)
    ensures |lines| == |inputs|
    ensures |inputs| > 0 ==> CreatedSale(s, RecordSale(s, userId, vtype, clientId, now, lines), userId, vtype, inputs, clientId, now)
  {
    BuiltLines(s, s.nextVentaId, inputs, true, lines);
    if |inputs| > 0 {
      RecordedSale(s, userId, vtype, inputs, clientId, now, lines);
    }
  }

  lemma {:induction false} RecordedSale(
    s: Store, userId: int, vtype: VentaType, inputs: seq<VentaItemInput>, clientId: Option<int>,
    now: Timestamp, lines: seq<VentaItem>)
    requires vtype == Caja || IdTruthy(clientId)
    requires !IdTruthy(clientId) || clientId.value in s.clients
    requires |lines| == |inputs| > 0
    requires forall k :: 0 <= k < |lines| ==> LineFor(s, s.nextVentaId, inputs[k], lines[k])
    requires forall k :: 0 <= k < |lines| ==> lines[k].quantityKg > 0.0 && lines[k].subtotal > 0.0
    requires forall k :: 0 <= k < |lines| && lines[k].productId in s.products ==>
               lines[k].quantityKg <= AvailableKg(WithLines(s, lines[..k]), lines[k].productId)
    ensures CreatedSale(s, RecordSale(s, userId, vtype, clientId, now, lines), userId, vtype, inputs, clientId, now)
  {
    SumPositive(lines, (it: VentaItem) => it.subtotal);
    var t := RecordSale(s, userId, vtype, clientId, now, lines);
    assert t.ventaItems[|s.ventaItems|..] == lines;
    assert t.ventaItems[..|s.ventaItems|] == s.ventaItems;
  }

  /** `delete_venta`: removes the sale and its lines; a credit sale's total is
      taken off its customer's debt, floored at zero. */
  function DeleteVenta(s: Store, ventaId: int): (r: Result<Store, AppError>)
    ensures ventaId !in s.ventas ==> r == Failure(NotFound("Venta", Some(ventaId)))
    ensures ventaId in s.ventas ==> r.Success?
    ensures r.Success? ==>
              var v := s.ventas[ventaId];
              var t := r.value;
              && t.ventas == s.ventas - {ventaId}
              && t.ventaItems == DropVentaItems(s.ventaItems, ventaId)
              && (v.vtype == Pedido && v.clientId.Some? && v.clientId.value in s.clients ==>
                    var c := v.clientId.value;
                    t.clients == s.clients[c := s.clients[c].(
                      currentDebt := ClampedSub(s.clients[c].currentDebt, v.totalAmount))])
              && (v.vtype == Caja || v.clientId.None? || v.clientId.value !in s.clients ==> t.clients == s.clients)
              && t == s.(ventas := t.ventas, ventaItems := t.ventaItems, clients := t.clients)
  {
    var v :- Get(s.ventas, ventaId, NotFound("Venta", Some(ventaId)));
    var clients := if v.vtype == Pedido then ReverseDebt(s.clients, v.clientId, v.totalAmount) else s.clients;
    Success(s.(
      ventas := s.ventas - {ventaId},
      ventaItems := DropVentaItems(s.ventaItems, ventaId),
      clients := clients))
  }

  /** Customer a sale has after `update_venta`: the given one when truthy,
      otherwise the one it already had. */
  function UpdatedClient(current: Option<int>, clientId: Option<int>): (c: Option<int>)
    ensures IdTruthy(clientId) ==> c == clientId
    ensures !IdTruthy(clientId) ==> c == current
  {
    if IdTruthy(clientId) && clientId != current then clientId else current
  }

  /** `update_venta`: a credit sale's old total comes off its old customer
      (floored at zero), the lines are replaced wholesale without any stock
      check, and the new total is charged to the (possibly new) customer.
      The sale type never changes. */
  function UpdateVenta(s: Store, ventaId: int, inputs: seq<VentaItemInput>, clientId: Option<int>, now: Timestamp)
    : (r: Result<Store, AppError>)
    ensures ventaId !in s.ventas ==> r == Failure(NotFound("Venta", Some(ventaId)))
    ensures ventaId in s.ventas && |inputs| == 0 ==> r == Failure(Validation(MsgNoProducts, Some("items")))
    ensures ventaId in s.ventas && |inputs| > 0 && s.ventas[ventaId].vtype == Pedido && !IdTruthy(clientId) ==>
              r == Failure(Validation(MsgClientRequired, Some("client_id")))
    ensures ventaId in s.ventas && |inputs| > 0 && (s.ventas[ventaId].vtype == Caja || IdTruthy(clientId))
            && IdTruthy(clientId) && clientId != s.ventas[ventaId].clientId && clientId.value !in s.clients ==>
              r == Failure(NotFound("Cliente", clientId))
    ensures r.Success? ==> |r.value.ventaItems| == |DropVentaItems(s.ventaItems, ventaId)| + |inputs|
    ensures r.Success? ==>
              var v := s.ventas[ventaId];
              var t := r.value;
              var kept := DropVentaItems(s.ventaItems, ventaId);
              var lines := t.ventaItems[|kept|..];
              var newClient := UpdatedClient(v.clientId, clientId);
              && t.ventaItems[..|kept|] == kept
              && (forall k :: 0 <= k < |inputs| ==> LineFor(s, ventaId, inputs[k], lines[k]))
              && t.ventas == s.ventas[ventaId := v.(date := now, clientId := newClient, totalAmount := TotalAmount(lines))]
              && t.ventas[ventaId].vtype == v.vtype
              && (v.vtype == Pedido ==>
                    t.clients == ChargeDebt(ReverseDebt(s.clients, v.clientId, v.totalAmount), newClient, TotalAmount(lines)))
              && (v.vtype == Caja ==> t.clients == s.clients)
              && t == s.(ventas := t.ventas, ventaItems := t.ventaItems, clients := t.clients)
  {
    var v :- Get(s.ventas, ventaId, NotFound("Venta", Some(ventaId)));
    :- Need(|inputs| > 0, Validation(MsgNoProducts, Some("items")));
    :- Need(v.vtype == Caja || IdTruthy(clientId), Validation(MsgClientRequired, Some("client_id")));
    var reversed := if v.vtype == Pedido then ReverseDebt(s.clients, v.clientId, v.totalAmount) else s.clients;
    :- Need(!(IdTruthy(clientId) && clientId != v.clientId) || clientId.value in s.clients,
            NotFound("Cliente", clientId));
    var newClient := UpdatedClient(v.clientId, clientId);
    var kept := DropVentaItems(s.ventaItems, ventaId);
    var lines :- BuildVentaItems(s, ventaId, inputs, [], false);
    BuiltLines(s, ventaId, inputs, false, lines);
    var total := TotalAmount(lines);
    var clients := if v.vtype == Pedido then ChargeDebt(reversed, newClient, total) else s.clients;
    var t := s.(
      ventas := s.ventas[ventaId := v.(date := now, clientId := newClient, totalAmount := total)],
      ventaItems := kept + lines,
      clients := clients);
    assert t.ventaItems[|kept|..] == lines;
    Success(t)
  }

  /** Past the early checks `update_venta` succeeds exactly when every new
      line builds (no stock check), storing those lines after the sale's
      other lines, and otherwise fails with the first failing line's error. */
  lemma {:induction false} UpdateVentaOutcome(
    s: Store, ventaId: int, inputs: seq<VentaItemInput>, clientId: Option<int>, now: Timestamp)
    requires ventaId in s.ventas && |inputs| > 0
    requires s.ventas[ventaId].vtype == Caja || IdTruthy(clientId)
    requires !(IdTruthy(clientId) && clientId != s.ventas[ventaId].clientId) || clientId.value in s.clients
    ensures var r := UpdateVenta(s, ventaId, inputs, clientId, now);
            && (forall lines :: |lines| == |inputs| && BuildsPrefix(s, ventaId, inputs, false, lines) ==>
                  r.Success? && r.value.ventaItems == DropVentaItems(s.ventaItems, ventaId) + lines)
            && (r.Success? ==>
                  BuildsPrefix(s, ventaId, inputs, false, r.value.ventaItems[|DropVentaItems(s.ventaItems, ventaId)|..]))
            && (r.Failure? ==>
                  exists p :: && BuildsPrefix(s, ventaId, inputs, false, p) && |p| < |inputs|
                              && BuildVentaItem(WithLines(s, p), ventaId, inputs[|p|], |p|, false) == Failure(r.error))
  {
    var b := BuildVentaItems(s, ventaId, inputs, [], false);
    var r := UpdateVenta(s, ventaId, inputs, clientId, now);
    BuildVentaItemsOutcome(s, ventaId, inputs, false);
    UpdateVentaBuilds(s, ventaId, inputs, clientId, now);
    forall lines | |lines| == |inputs| && BuildsPrefix(s, ventaId, inputs, false, lines)
      ensures r.Success? && r.value.ventaItems == DropVentaItems(s.ventaItems, ventaId) + lines
    {
      assert b == Success(lines);
    }
    if r.Failure? {
      assert b.Failure? && r.error == b.error;
    }
  }

  /** Past the early checks `update_venta` fails exactly when the line build
      does, with its error, and otherwise stores the built lines. */
  lemma {:induction false} UpdateVentaBuilds(
    s: Store, ventaId: int, inputs: seq<VentaItemInput>, clientId: Option<int>, now: Timestamp)
    requires ventaId in s.ventas && |inputs| > 0
    requires s.ventas[ventaId].vtype == Caja || IdTruthy(clientId)
    requires !(IdTruthy(clientId) && clientId != s.ventas[ventaId].clientId) || clientId.value in s.clients
    ensures var b := BuildVentaItems(s, ventaId, inputs, [], false);
            var r := UpdateVenta(s, ventaId, inputs, clientId, now);
            && (r.Success? <==> b.Success?)
            && (r.Failure? ==> r.error == b.error)
            && (r.Success? ==> r.value.ventaItems == DropVentaItems(s.ventaItems, ventaId) + b.value
                               && r.value.ventaItems[|DropVentaItems(s.ventaItems, ventaId)|..] == b.value)
  {
    var kept := DropVentaItems(s.ventaItems, ventaId);
    var b := BuildVentaItems(s, ventaId, inputs, [], false);
    if b.Success? {
      assert (kept + b.value)[|kept|..] == b.value;
    }
  }

  // ---------------------------------------------------------------------
  // Properties of the sale workflow

  /** A committed sale keeps every key and foreign key below its sequence. */
  lemma {:induction false} CreateVentaPreservesValid(
    s: Store, userId: int, vtype: VentaType, inputs: seq<VentaItemInput>, clientId: Option<int>, now: Timestamp)
    requires Valid(s)
    requires CreateVenta(s, userId, vtype, inputs, clientId, now).Success?
    ensures Valid(CreateVenta(s, userId, vtype, inputs, clientId, now).value)
  {
    var lines := CommittedLines(s, userId, vtype, inputs, clientId, now);
    RecordSalePreservesValid(s, userId, vtype, clientId, now, lines);
  }

  lemma {:induction false} RecordSalePreservesValid(
    s: Store, userId: int, vtype: VentaType, clientId: Option<int>, now: Timestamp, lines: seq<VentaItem>)
    requires Valid(s)
    requires forall k :: 0 <= k < |lines| ==> lines[k].ventaId == s.nextVentaId
    ensures Valid(RecordSale(s, userId, vtype, clientId, now, lines))
  {
    var t := RecordSale(s, userId, vtype, clientId, now, lines);
    forall i | 0 <= i < |t.ventaItems|
      ensures t.ventaItems[i].ventaId < t.nextVentaId
    {
      if i < |s.ventaItems| {
        assert t.ventaItems[i] == s.ventaItems[i];
      } else {
        assert t.ventaItems[i] == lines[i - |s.ventaItems|];
      }
    }
  }

  /** A sale never leaves any customer owing a negative amount. */
  lemma {:induction false} CreateVentaKeepsDebtsNonNegative(
    s: Store, userId: int, vtype: VentaType, inputs: seq<VentaItemInput>, clientId: Option<int>, now: Timestamp)
    requires DebtsNonNegative(s.clients)
    requires CreateVenta(s, userId, vtype, inputs, clientId, now).Success?
    ensures DebtsNonNegative(CreateVenta(s, userId, vtype, inputs, clientId, now).value.clients)
  {
    var lines := CommittedLines(s, userId, vtype, inputs, clientId, now);
    BuiltTotalPositive(s, s.nextVentaId, inputs, true, lines);
    RecordSaleKeepsDebtsNonNegative(s, userId, vtype, clientId, now, lines);
  }

  lemma {:induction false} RecordSaleKeepsDebtsNonNegative(
    s: Store, userId: int, vtype: VentaType, clientId: Option<int>, now: Timestamp, lines: seq<VentaItem>)
    requires DebtsNonNegative(s.clients)
    requires TotalAmount(lines) >= 0.0
    ensures DebtsNonNegative(RecordSale(s, userId, vtype, clientId, now, lines).clients)
  {
  }

  /** A successful build of at least one line has a positive total. */
  lemma {:induction false} BuiltTotalPositive(
    s: Store, ventaId: int, inputs: seq<VentaItemInput>, checkStock: bool, lines: seq<VentaItem>)
    requires BuildVentaItems(s, ventaId, inputs, [], checkStock) == Success(lines)
    requires |inputs| > 0
    ensures TotalAmount(lines) > 0.0
  {
    BuiltLines(s, ventaId, inputs, checkStock, lines);
    SumPositive(lines, (it: VentaItem) => it.subtotal);
  }

  /** Deleting a sale never leaves any customer owing a negative amount, even
      when the debt was already paid down below the sale total. */
  lemma {:induction false} DeleteVentaKeepsDebtsNonNegative(s: Store, ventaId: int)
    requires DebtsNonNegative(s.clients)
    requires DeleteVenta(s, ventaId).Success?
    ensures DebtsNonNegative(DeleteVenta(s, ventaId).value.clients)
  {
  }

  /** Editing a sale never leaves any customer owing a negative amount. */
  lemma {:induction false} UpdateVentaKeepsDebtsNonNegative(
    s: Store, ventaId: int, inputs: seq<VentaItemInput>, clientId: Option<int>, now: Timestamp)
    requires DebtsNonNegative(s.clients)
    requires UpdateVenta(s, ventaId, inputs, clientId, now).Success?
    ensures DebtsNonNegative(UpdateVenta(s, ventaId, inputs, clientId, now).value.clients)
  {
    var t := UpdateVenta(s, ventaId, inputs, clientId, now).value;
    var lines := t.ventaItems[|DropVentaItems(s.ventaItems, ventaId)|..];
    forall k | 0 <= k < |lines|
      ensures lines[k].subtotal > 0.0
    {
      assert LineFor(s, ventaId, inputs[k], lines[k]);
    }
    SumPositive(lines, (it: VentaItem) => it.subtotal);
  }

  /** Editing a credit sale moves its debt: when the customer stays, their
      debt goes from `d` to `max(0, d - old total) + new total`; when the
      customer changes, the old one loses the old total (floored at zero),
      the new one gains the new total, and nobody else is touched. */
  lemma {:induction false} UpdateVentaMovesDebt(
    s: Store, ventaId: int, inputs: seq<VentaItemInput>, clientId: Option<int>, now: Timestamp, t: Store)
    requires UpdateVenta(s, ventaId, inputs, clientId, now) == Success(t)
    requires ventaId in s.ventas && s.ventas[ventaId].vtype == Pedido
    requires s.ventas[ventaId].clientId.Some? && s.ventas[ventaId].clientId.value in s.clients
    ensures var was := s.ventas[ventaId].clientId.value;
            var oldTotal := s.ventas[ventaId].totalAmount;
            var newTotal := t.ventas[ventaId].totalAmount;
            && (!IdTruthy(clientId) || clientId.value == was ==>
                  t.clients[was].currentDebt == ClampedSub(s.clients[was].currentDebt, oldTotal) + newTotal)
            && (IdTruthy(clientId) && clientId.value != was ==>
                  && t.clients[was].currentDebt == ClampedSub(s.clients[was].currentDebt, oldTotal)
                  && t.clients[clientId.value].currentDebt == s.clients[clientId.value].currentDebt + newTotal)
            && (forall c :: c in s.clients && c != was && Some(c) != clientId ==> t.clients[c] == s.clients[c])
  {
    var v := s.ventas[ventaId];
    var was := v.clientId.value;
    var reversed := ReverseDebt(s.clients, v.clientId, v.totalAmount);
    var newClient := UpdatedClient(v.clientId, clientId);
    assert t.clients == ChargeDebt(reversed, newClient, t.ventas[ventaId].totalAmount);
    if IdTruthy(clientId) && clientId.value != was {
      assert newClient == clientId;
      assert clientId.value in s.clients;
    } else {
      assert newClient == v.clientId;
    }
  }

  /** The stock check on each line means a sale never sells more of a product
      than has come in, provided the product was not oversold already. */
  lemma {:induction false} CreateVentaNeverOversells(
    s: Store, userId: int, vtype: VentaType, inputs: seq<VentaItemInput>, clientId: Option<int>, now: Timestamp,
    pid: int)
    requires pid in s.products
    requires VendidoKg(s.ventaItems, pid) <= IngresoKg(s.ingresoItems, pid)
    requires CreateVenta(s, userId, vtype, inputs, clientId, now).Success?
    ensures var t := CreateVenta(s, userId, vtype, inputs, clientId, now).value;
            VendidoKg(t.ventaItems, pid) <= IngresoKg(t.ingresoItems, pid)
  {
    var lines := CommittedLines(s, userId, vtype, inputs, clientId, now);
    BuiltLines(s, s.nextVentaId, inputs, true, lines);
    RecordSaleWithinStock(s, userId, vtype, clientId, now, lines, pid);
  }

  lemma {:induction false} RecordSaleWithinStock(
    s: Store, userId: int, vtype: VentaType, clientId: Option<int>, now: Timestamp, lines: seq<VentaItem>,
    pid: int)
    requires pid in s.products
    requires VendidoKg(s.ventaItems, pid) <= IngresoKg(s.ingresoItems, pid)
    requires forall k :: 0 <= k < |lines| ==> lines[k].productId in s.products
    requires forall k :: 0 <= k < |lines| && lines[k].productId in s.products ==>
               lines[k].quantityKg <= AvailableKg(WithLines(s, lines[..k]), lines[k].productId)
    ensures var t := RecordSale(s, userId, vtype, clientId, now, lines);
            VendidoKg(t.ventaItems, pid) <= IngresoKg(t.ingresoItems, pid)
  {
    PrefixWithinStock(s, lines, pid, |lines|);
    assert lines[..|lines|] == lines;
  }

  /** The lines a successful `create_venta` commits, with what the build
      established about each of them. */
  lemma {:induction false} CommittedLines(
    s: Store, userId: int, vtype: VentaType, inputs: seq<VentaItemInput>, clientId: Option<int>, now: Timestamp)
    returns (lines: seq<VentaItem>)
    requires CreateVenta(s, userId, vtype, inputs, clientId, now).Success?
    ensures CreateVenta(s, userId, vtype, inputs, clientId, now) == Success(RecordSale(s, userId, vtype, clientId, now, lines))
    ensures vtype == Pedido ==> clientId.Some? && clientId.value in s.clients
    ensures BuildVentaItems(s, s.nextVentaId, inputs, [], true) == Success(lines)
    ensures |lines| == |inputs| > 0
    ensures forall k :: 0 <= k < |lines| ==> lines[k].ventaId == s.nextVentaId
  {
    lines := BuildVentaItems(s, s.nextVentaId, inputs, [], true).value;
    BuiltLines(s, s.nextVentaId, inputs, true, lines);
  }

  /** Each prefix of a stock-checked sale stays within the intake of `pid`. */
  lemma {:induction false} PrefixWithinStock(s: Store, lines: seq<VentaItem>, pid: int, n: nat)
    requires pid in s.products
    requires VendidoKg(s.ventaItems, pid) <= IngresoKg(s.ingresoItems, pid)
    requires forall k :: 0 <= k < |lines| ==> lines[k].productId in s.products
    requires forall k :: 0 <= k < |lines| && lines[k].productId in s.products ==>
               lines[k].quantityKg <= AvailableKg(WithLines(s, lines[..k]), lines[k].productId)
    requires n <= |lines|
    ensures VendidoKg(s.ventaItems + lines[..n], pid) <= IngresoKg(s.ingresoItems, pid)
  {
    if n == 0 {
      assert s.ventaItems + lines[..0] == s.ventaItems;
    } else {
      var k := n - 1;
      PrefixWithinStock(s, lines, pid, k);
      AppendPrefixStep(s.ventaItems, lines, n);
      VendidoTotalsAppend(s.ventaItems + lines[..k], [lines[k]], pid);
      assert VendidoKg([lines[k]], pid) == if lines[k].productId == pid then lines[k].quantityKg else 0.0;
      if lines[k].productId == pid {
        assert lines[k].quantityKg <= AvailableKg(WithLines(s, lines[..k]), pid);
      } else {
        assert lines[k].quantityKg > 0.0 || VendidoKg([lines[k]], pid) == 0.0;
      }
    }
  }

  /** Creating a sale and then deleting it restores every table and every
      debt; only the sale sequence has moved on. For a credit sale this is the
      reversal round trip: the customer's non-negative debt comes back exactly. */
  lemma {:induction false} CreateThenDeleteRestores(
    s: Store, userId: int, vtype: VentaType, inputs: seq<VentaItemInput>, clientId: Option<int>, now: Timestamp)
    requires Valid(s)
    requires DebtsNonNegative(s.clients)
    requires CreateVenta(s, userId, vtype, inputs, clientId, now).Success?
    ensures DeleteVenta(CreateVenta(s, userId, vtype, inputs, clientId, now).value, s.nextVentaId)
         == Success(s.(nextVentaId := s.nextVentaId + 1))
  {
    var lines := CommittedLines(s, userId, vtype, inputs, clientId, now);
    BuiltLines(s, s.nextVentaId, inputs, true, lines);
    SumPositive(lines, (it: VentaItem) => it.subtotal);
    DeleteRecordedSale(s, userId, vtype, clientId, now, lines);
  }

  /** Deleting the sale just recorded under the next key undoes the recording. */
  lemma {:induction false} DeleteRecordedSale(
    s: Store, userId: int, vtype: VentaType, clientId: Option<int>, now: Timestamp, lines: seq<VentaItem>)
    requires Valid(s)
    requires DebtsNonNegative(s.clients)
    requires vtype == Pedido ==> clientId.Some? && clientId.value in s.clients
    requires forall k :: 0 <= k < |lines| ==> lines[k].ventaId == s.nextVentaId
    requires TotalAmount(lines) >= 0.0
    ensures DeleteVenta(RecordSale(s, userId, vtype, clientId, now, lines), s.nextVentaId)
         == Success(s.(nextVentaId := s.nextVentaId + 1))
  {
    var id := s.nextVentaId;
    var t := RecordSale(s, userId, vtype, clientId, now, lines);
    var u := DeleteVenta(t, id).value;
    assert id !in s.ventas;
    assert u.ventas == s.ventas;
    DropVentaItemsAppend(s.ventaItems, lines, id);
    DropVentaItemsKeepsOthers(s.ventaItems, id);
    DropVentaItemsRemovesOwn(lines, id);
    assert u.ventaItems == s.ventaItems;
    if vtype == Pedido {
      ChargeThenReverseRestores(s.clients, clientId, TotalAmount(lines));
      assert u.clients == ReverseDebt(t.clients, clientId, TotalAmount(lines));
    }
  }
}
