/** The intake workflow (`create_ingreso_lote`): validates a truck batch and
    stores its header and line items as one unit. */
module Ingresos {
  import opened Wrappers
  import opened Text
  import opened Errors
  import opened Domain
  import opened Calculators
  import Stock

  /** One entry of `items_data`; `None` is a key absent from the dictionary. */
  datatype IngresoItemInput = IngresoItemInput(
    supplierName: Option<string>,
    productId: Option<int>,
    totalKg: Option<real>,
    conversionFactor: Option<real>,
    costPriceInput: Option<real>,
    costPriceMode: Option<string>)

  const MsgTruckId: string := "La placa del camión debe tener al menos 3 caracteres"
  const MsgNoItems: string := "Debe incluir al menos un proveedor/producto"

  function SupplierRequired(idx: nat): AppError {
    Validation("Proveedor requerido en item " + NatToString(idx + 1), Some("supplier_name"))
  }

  /** The stored line `it` is what batch `loteId` records for `input`: the
      stripped supplier, the product, the kg, the item's factor or else the
      product's, and the calculator's figures for the given or JAVA mode. */
  predicate StoredAs(s: Store, loteId: int, input: IngresoItemInput, it: IngresoItem) {
    && input.productId == Some(it.productId)
    && it.productId in s.products
    && it.loteId == loteId
    && it.supplierName == Strip(input.supplierName.GetOr("")) && it.supplierName != []
    && it.totalKg == input.totalKg.GetOr(0.0)
    && it.conversionFactor == input.conversionFactor.GetOr(s.products[it.productId].conversionFactor)
    && CalculateItemCosts(
         it.totalKg, it.conversionFactor,
         input.costPriceInput.GetOr(0.0), input.costPriceMode.GetOr(ModeJava))
       == Success(CalculatedItem(it.totalJavas, it.costPerJava, it.totalCost))
  }

  /** Validates and assembles line `idx` of a batch. */
  function BuildIngresoItem(s: Store, loteId: int, input: IngresoItemInput, idx: nat)
    : (r: Result<IngresoItem, AppError>)
    ensures Strip(input.supplierName.GetOr("")) == [] ==> r == Failure(SupplierRequired(idx))
    ensures Strip(input.supplierName.GetOr("")) != [] && !IdTruthy(input.productId) ==>
              r == Failure(ProductRequired(idx))
    ensures Strip(input.supplierName.GetOr("")) != [] && IdTruthy(input.productId)
            && input.productId.value !in s.products ==>
              r == Failure(NotFound("Producto", input.productId))
    ensures Strip(input.supplierName.GetOr("")) != [] && IdTruthy(input.productId)
            && input.productId.value in s.products ==>
              var factor := input.conversionFactor.GetOr(s.products[input.productId.value].conversionFactor);
              var costs := CalculateItemCosts(
                input.totalKg.GetOr(0.0), factor,
                input.costPriceInput.GetOr(0.0), input.costPriceMode.GetOr(ModeJava));
              (r.Failure? <==> costs.Failure?) && (r.Failure? ==> r.error == costs.error)
    ensures r.Success? ==> StoredAs(s, loteId, input, r.value)
    ensures r.Success? ==> r.value.totalKg > 0.0 && r.value.totalJavas > 0.0 && r.value.totalCost > 0.0
  {
    var supplier := Strip(input.supplierName.GetOr(""));
    :- Need(supplier != [], SupplierRequired(idx));
    :- Need(IdTruthy(input.productId), ProductRequired(idx));
    var pid := input.productId.value;
    :- Need(pid in s.products, NotFound("Producto", input.productId));
    var product := s.products[pid];
    var kg := input.totalKg.GetOr(0.0);
    var factor := input.conversionFactor.GetOr(product.conversionFactor);
    var costs :- CalculateItemCosts(
      kg, factor, input.costPriceInput.GetOr(0.0), input.costPriceMode.GetOr(ModeJava));
    Success(IngresoItem(loteId, supplier, pid, kg, factor, costs.totalJavas, costs.costPerJava, costs.totalCost))
  }

  /** Runs `build` over the indices `start..end` in order, collecting the
      results; the first failure aborts the run. */
  function BuildAll<T, E>(build: nat --> Result<T, E>, start: nat, end: nat): (r: Result<seq<T>, E>)
    requires start <= end
    requires forall k :: start <= k < end ==> build.requires(k)
    ensures r.Success? <==> forall k :: start <= k < end ==> build(k).Success?
    ensures r.Success? ==> |r.value| == end - start
    ensures r.Success? ==> forall k :: 0 <= k < |r.value| ==> build(start + k) == Success(r.value[k])
    ensures r.Failure? ==>
              exists k :: start <= k < end && build(k) == Failure(r.error)
                && forall j :: start <= j < k ==> build(j).Success?
    decreases end - start
  {
    if start == end then Success([])
    else
      var it :- build(start);
      var rest :- BuildAll(build, start + 1, end);
      assert forall k :: 0 < k <= |rest| ==> ([it] + rest)[k] == rest[k - 1];
      Success([it] + rest)
  }

  /** Builds lines `start..` in input order; the first failing line aborts. */
  function BuildIngresoItems(s: Store, loteId: int, inputs: seq<IngresoItemInput>, start: nat)
    : (r: Result<seq<IngresoItem>, AppError>)
    requires start <= |inputs|
    ensures r.Success? ==> |r.value| == |inputs| - start
    ensures r.Success? ==>
              forall k :: 0 <= k < |r.value| ==> BuildIngresoItem(s, loteId, inputs[start + k], start + k) == Success(r.value[k])
  {
    var build := LineBuilder(s, loteId, inputs);
    assert forall k :: start <= k < |inputs| ==> build(k) == BuildIngresoItem(s, loteId, inputs[k], k);
    BuildAll(build, start, |inputs|)
  }

  /** Line `k` of the batch as a partial function of its index. */
  function LineBuilder(s: Store, loteId: int, inputs: seq<IngresoItemInput>): (build: nat --> Result<IngresoItem, AppError>)
    ensures forall k: nat :: k < |inputs| ==> build.requires(k) && build(k) == BuildIngresoItem(s, loteId, inputs[k], k)
  {
    (k: nat) requires k < |inputs| => BuildIngresoItem(s, loteId, inputs[k], k)
  }

  /** The build fails exactly when some line fails, and then with the error
      of the first failing line. */
  lemma {:induction false} BuildIngresoItemsOutcome(s: Store, loteId: int, inputs: seq<IngresoItemInput>)
    ensures var r := BuildIngresoItems(s, loteId, inputs, 0);
            && (r.Success? <==> forall k :: 0 <= k < |inputs| ==> BuildIngresoItem(s, loteId, inputs[k], k).Success?)
            && (r.Failure? ==>
                  exists k :: 0 <= k < |inputs| && BuildIngresoItem(s, loteId, inputs[k], k) == Failure(r.error)
                    && forall j :: 0 <= j < k ==> BuildIngresoItem(s, loteId, inputs[j], j).Success?)
  {
    var build := LineBuilder(s, loteId, inputs);
    assert BuildIngresoItems(s, loteId, inputs, 0) == BuildAll(build, 0, |inputs|);
  }

  /** `create_ingreso_lote`: a plate shorter than 3 characters once stripped
      is refused, then an empty batch; otherwise the lines are built in input
      order and the batch is committed as `RecordLote` describes. Any failure
      leaves the store as it was. */
  function CreateIngresoLote(s: Store, truckId: string, inputs: seq<IngresoItemInput>, now: Timestamp)
    : (r: Result<Store, AppError>)
    ensures |Strip(truckId)| < 3 ==> r == Failure(Validation(MsgTruckId, Some("truck_id")))
    ensures |Strip(truckId)| >= 3 && |inputs| == 0 ==> r == Failure(Validation(MsgNoItems, Some("items")))
    ensures r.Success? ==> |r.value.ingresoItems| == |s.ingresoItems| + |inputs|
  {
    var id := s.nextLoteId;
    :- Need(|truckId| > 0 && |Strip(truckId)| >= 3, Validation(MsgTruckId, Some("truck_id")));
    :- Need(|inputs| > 0, Validation(MsgNoItems, Some("items")));
    var items :- BuildIngresoItems(s, id, inputs, 0);
    Success(RecordLote(s, truckId, now, items))
  }

  /** The store once a batch with these lines is committed: the header under
      the next key with the stripped, upper-cased plate and the time `now`,
      and the lines appended after every existing line. */
  function RecordLote(s: Store, truckId: string, now: Timestamp, items: seq<IngresoItem>): (t: Store)
    ensures |t.ingresoItems| == |s.ingresoItems| + |items|
  {
    s.(
      lotes := s.lotes[s.nextLoteId := IngresoLote(now, Upper(Strip(truckId)))],
      ingresoItems := s.ingresoItems + items,
      nextLoteId := s.nextLoteId + 1)
  }

  /** Past the plate and emptiness checks, a batch is stored exactly when
      every line builds; otherwise the error is the first failing line's. */
  lemma {:induction false} CreateIngresoLoteOutcome(s: Store, truckId: string, inputs: seq<IngresoItemInput>, now: Timestamp)
    ensures var r := CreateIngresoLote(s, truckId, inputs, now);
            && (r.Success? <==>
                  && |Strip(truckId)| >= 3 && |inputs| > 0
                  && forall k :: 0 <= k < |inputs| ==> BuildIngresoItem(s, s.nextLoteId, inputs[k], k).Success?)
            && (r.Failure? && |Strip(truckId)| >= 3 && |inputs| > 0 ==>
                  exists k :: 0 <= k < |inputs| && BuildIngresoItem(s, s.nextLoteId, inputs[k], k) == Failure(r.error)
                    && forall j :: 0 <= j < k ==> BuildIngresoItem(s, s.nextLoteId, inputs[j], j).Success?)
  {
    if |Strip(truckId)| >= 3 && |inputs| > 0 {
      assert |truckId| > 0;
      BuildIngresoItemsOutcome(s, s.nextLoteId, inputs);
      var b := BuildIngresoItems(s, s.nextLoteId, inputs, 0);
      assert CreateIngresoLote(s, truckId, inputs, now)
          == if b.Success? then Success(RecordLote(s, truckId, now, b.value)) else Failure(b.error);
    }
  }

  /** The lines a successful `create_ingreso_lote` commits, each stored as
      its input describes. */
  lemma {:induction false} CommittedLote(s: Store, truckId: string, inputs: seq<IngresoItemInput>, now: Timestamp)
    returns (items: seq<IngresoItem>)
    requires CreateIngresoLote(s, truckId, inputs, now).Success?
    ensures CreateIngresoLote(s, truckId, inputs, now) == Success(RecordLote(s, truckId, now, items))
    ensures |items| == |inputs| > 0
    ensures forall k :: 0 <= k < |items| ==> StoredAs(s, s.nextLoteId, inputs[k], items[k])
  {
    items := BuildIngresoItems(s, s.nextLoteId, inputs, 0).value;
    forall k | 0 <= k < |items|
      ensures StoredAs(s, s.nextLoteId, inputs[k], items[k])
    {
      assert BuildIngresoItem(s, s.nextLoteId, inputs[0 + k], 0 + k) == Success(items[k]);
    }
  }

  /** What a successful `create_ingreso_lote` leaves behind: the header under
      the next key, one stored line per input in input order after the old
      lines, and nothing else changed. */
  lemma {:induction false} CreateIngresoLoteStores(
    s: Store, truckId: string, inputs: seq<IngresoItemInput>, now: Timestamp, t: Store)
    requires CreateIngresoLote(s, truckId, inputs, now) == Success(t)
    ensures t.lotes == s.lotes[s.nextLoteId := IngresoLote(now, Upper(Strip(truckId)))]
    ensures t.nextLoteId == s.nextLoteId + 1
    ensures |t.ingresoItems| == |s.ingresoItems| + |inputs|
    ensures t.ingresoItems[..|s.ingresoItems|] == s.ingresoItems
    ensures forall k :: 0 <= k < |inputs| ==>
              StoredAs(s, s.nextLoteId, inputs[k], t.ingresoItems[|s.ingresoItems| + k])
    ensures t == s.(lotes := t.lotes, ingresoItems := t.ingresoItems, nextLoteId := t.nextLoteId)
  {
    var items := CommittedLote(s, truckId, inputs, now);
    assert t.ingresoItems == s.ingresoItems + items;
    assert forall k :: 0 <= k < |inputs| ==> t.ingresoItems[|s.ingresoItems| + k] == items[k];
  }

  /** Creating a batch keeps every key below its sequence. */
  lemma {:induction false} CreateIngresoLotePreservesValid(s: Store, truckId: string, inputs: seq<IngresoItemInput>, now: Timestamp)
    requires Valid(s)
    requires CreateIngresoLote(s, truckId, inputs, now).Success?
    ensures Valid(CreateIngresoLote(s, truckId, inputs, now).value)
  {
    var items := CommittedLote(s, truckId, inputs, now);
    RecordLotePreservesValid(s, truckId, now, items);
  }

  lemma {:induction false} RecordLotePreservesValid(s: Store, truckId: string, now: Timestamp, items: seq<IngresoItem>)
    requires Valid(s)
    requires forall k :: 0 <= k < |items| ==> items[k].loteId == s.nextLoteId
    ensures Valid(RecordLote(s, truckId, now, items))
  {
    var t := RecordLote(s, truckId, now, items);
    forall i | 0 <= i < |t.ingresoItems|
      ensures t.ingresoItems[i].loteId < t.nextLoteId
    {
      if i >= |s.ingresoItems| {
        assert t.ingresoItems[i] == items[i - |s.ingresoItems|];
      } else {
        assert t.ingresoItems[i] == s.ingresoItems[i];
      }
    }
  }

  /** The lines of the new batch are exactly the lines it appended. */
  lemma {:induction false} NewLoteItems(s: Store, truckId: string, inputs: seq<IngresoItemInput>, now: Timestamp)
    returns (items: seq<IngresoItem>)
    requires Valid(s)
    requires CreateIngresoLote(s, truckId, inputs, now).Success?
    ensures CreateIngresoLote(s, truckId, inputs, now) == Success(RecordLote(s, truckId, now, items))
    ensures |items| == |inputs|
    ensures forall k :: 0 <= k < |items| ==> StoredAs(s, s.nextLoteId, inputs[k], items[k])
    ensures ItemsOfLote(RecordLote(s, truckId, now, items).ingresoItems, s.nextLoteId) == items
  {
    items := CommittedLote(s, truckId, inputs, now);
    RecordedLoteItems(s, truckId, now, items);
  }

  lemma {:induction false} RecordedLoteItems(s: Store, truckId: string, now: Timestamp, items: seq<IngresoItem>)
    requires Valid(s)
    requires forall k :: 0 <= k < |items| ==> items[k].loteId == s.nextLoteId
    ensures ItemsOfLote(RecordLote(s, truckId, now, items).ingresoItems, s.nextLoteId) == items
  {
    var p := (it: IngresoItem) => it.loteId == s.nextLoteId;
    FilterAppend(s.ingresoItems, items, p);
    FilterNone(s.ingresoItems, p);
    FilterAll(items, p);
  }

  /** A batch raises each product's intake totals by its own lines for that
      product and leaves the sales totals alone. */
  lemma {:induction false} CreateIngresoLoteAddsStock(
    s: Store, truckId: string, inputs: seq<IngresoItemInput>, now: Timestamp, pid: int)
    requires CreateIngresoLote(s, truckId, inputs, now).Success?
    requires pid in s.products
    ensures var t := CreateIngresoLote(s, truckId, inputs, now).value;
            var added := t.ingresoItems[|s.ingresoItems|..];
            var before := Stock.GetStockByProduct(s)[pid];
            var after := Stock.GetStockByProduct(t)[pid];
            && after.totalIngresoKg == before.totalIngresoKg + Stock.IngresoKg(added, pid)
            && after.totalIngresoJavas == before.totalIngresoJavas + Stock.IngresoJavas(added, pid)
            && after.totalVendidoKg == before.totalVendidoKg
            && after.totalVendidoJavas == before.totalVendidoJavas
  {
    var items := CommittedLote(s, truckId, inputs, now);
    var t := RecordLote(s, truckId, now, items);
    assert t.ingresoItems[|s.ingresoItems|..] == items;
    Stock.IngresoTotalsAppend(s.ingresoItems, items, pid);
  }
}
