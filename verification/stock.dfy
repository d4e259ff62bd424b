/** The stock aggregator: per-product intake and sales totals recomputed from
    the whole line-item history, clamped availability, weighted-average cost
    and the sufficiency check made before each sale line. */
module Stock {
  import opened Wrappers
  import opened Errors
  import opened Domain

  datatype StockInfo = StockInfo(
    productId: int,
    productName: string,
    totalIngresoKg: real,
    totalIngresoJavas: real,
    totalVendidoKg: real,
    totalVendidoJavas: real,
    costoPromedioJava: real)

  /** Kilograms on hand; an oversold product shows 0, never a negative figure. */
  function StockDisponibleKg(info: StockInfo): (r: real)
    ensures r >= 0.0
    ensures info.totalIngresoKg >= info.totalVendidoKg ==> r == info.totalIngresoKg - info.totalVendidoKg
    ensures info.totalIngresoKg < info.totalVendidoKg ==> r == 0.0
  {
    ClampedSub(info.totalIngresoKg, info.totalVendidoKg)
  }

  /** Javas on hand, clamped the same way. */
  function StockDisponibleJavas(info: StockInfo): (r: real)
    ensures r >= 0.0
    ensures info.totalIngresoJavas >= info.totalVendidoJavas ==>
              r == info.totalIngresoJavas - info.totalVendidoJavas
    ensures info.totalIngresoJavas < info.totalVendidoJavas ==> r == 0.0
  {
    ClampedSub(info.totalIngresoJavas, info.totalVendidoJavas)
  }

  // Per-product sums over the line-item tables (`SUM(...) GROUP BY product_id`).

  function IngresoKg(items: seq<IngresoItem>, pid: int): real {
    Sum(items, (it: IngresoItem) => if it.productId == pid then it.totalKg else 0.0)
  }

  function IngresoJavas(items: seq<IngresoItem>, pid: int): real {
    Sum(items, (it: IngresoItem) => if it.productId == pid then it.totalJavas else 0.0)
  }

  function IngresoCost(items: seq<IngresoItem>, pid: int): real {
    Sum(items, (it: IngresoItem) => if it.productId == pid then it.totalCost else 0.0)
  }

  function VendidoKg(items: seq<VentaItem>, pid: int): real {
    Sum(items, (it: VentaItem) => if it.productId == pid then it.quantityKg else 0.0)
  }

  function VendidoJavas(items: seq<VentaItem>, pid: int): real {
    Sum(items, (it: VentaItem) => if it.productId == pid then it.quantityJavas else 0.0)
  }

  /** Weighted-average cost per java: total cost over total javas, 0 with no javas. */
  function CostoPromedio(totalCost: real, totalJavas: real): (r: real)
    ensures totalJavas > 0.0 ==> r * totalJavas == totalCost
    ensures totalJavas <= 0.0 ==> r == 0.0
  {
    if totalJavas > 0.0 then totalCost / totalJavas else 0.0
  }

  /** Stock of every existing product, whether or not it has line items. */
  function GetStockByProduct(s: Store): (m: map<int, StockInfo>)
    ensures m.Keys == s.products.Keys
    ensures forall pid :: pid in m ==>
              && m[pid].productId == pid
              && m[pid].productName == s.products[pid].name
              && m[pid].totalIngresoKg == IngresoKg(s.ingresoItems, pid)
              && m[pid].totalIngresoJavas == IngresoJavas(s.ingresoItems, pid)
              && m[pid].totalVendidoKg == VendidoKg(s.ventaItems, pid)
              && m[pid].totalVendidoJavas == VendidoJavas(s.ventaItems, pid)
              && m[pid].costoPromedioJava
                 == CostoPromedio(IngresoCost(s.ingresoItems, pid), IngresoJavas(s.ingresoItems, pid))
  {
    map pid | pid in s.products ::
      StockInfo(
        pid,
        s.products[pid].name,
        IngresoKg(s.ingresoItems, pid),
        IngresoJavas(s.ingresoItems, pid),
        VendidoKg(s.ventaItems, pid),
        VendidoJavas(s.ventaItems, pid),
        CostoPromedio(IngresoCost(s.ingresoItems, pid), IngresoJavas(s.ingresoItems, pid)))
  }

  /** Available kilograms of an existing product. */
  function AvailableKg(s: Store, pid: int): (r: real)
    requires pid in s.products
    ensures r >= 0.0
    ensures IngresoKg(s.ingresoItems, pid) >= VendidoKg(s.ventaItems, pid) ==>
              r == IngresoKg(s.ingresoItems, pid) - VendidoKg(s.ventaItems, pid)
    ensures IngresoKg(s.ingresoItems, pid) < VendidoKg(s.ventaItems, pid) ==> r == 0.0
  {
    StockDisponibleKg(GetStockByProduct(s)[pid])
  }

  /** `get_product_stock`: the product's entry, or not-found. */
  function GetProductStock(s: Store, pid: int): (r: Result<StockInfo, AppError>)
    ensures r.Failure? <==> pid !in s.products
    ensures r.Failure? ==> r.error == NotFound("Producto", Some(pid))
    ensures r.Success? ==> r.value.productId == pid && r.value.productName == s.products[pid].name
    ensures r.Success? ==> r.value == GetStockByProduct(s)[pid]
  {
    var m := GetStockByProduct(s);
    if pid !in m then Failure(NotFound("Producto", Some(pid))) else Success(m[pid])
  }

  /** `validate_stock_disponible`: passes exactly when at least `kg` kilograms
      are available. */
  function ValidateStockDisponible(s: Store, pid: int, kg: real): (r: Result<bool, AppError>)
    ensures pid !in s.products ==> r == Failure(NotFound("Producto", Some(pid)))
    ensures pid in s.products ==> (r.Success? <==> kg <= AvailableKg(s, pid))
    ensures pid in s.products && r.Failure? ==>
              r.error == StockInsuficiente(s.products[pid].name, AvailableKg(s, pid), kg)
    ensures r.Success? ==> r.value
  {
    var info :- GetProductStock(s, pid);
    if StockDisponibleKg(info) < kg then
      Failure(StockInsuficiente(info.productName, StockDisponibleKg(info), kg))
    else
      Success(true)
  }

  /** `get_costo_promedio`: the product's weighted-average cost per java. */
  function GetCostoPromedio(s: Store, pid: int): (r: Result<real, AppError>)
    ensures r.Failure? <==> pid !in s.products
    ensures r.Failure? ==> r.error == NotFound("Producto", Some(pid))
    ensures r.Success? && IngresoJavas(s.ingresoItems, pid) > 0.0 ==>
              r.value * IngresoJavas(s.ingresoItems, pid) == IngresoCost(s.ingresoItems, pid)
    ensures r.Success? && IngresoJavas(s.ingresoItems, pid) <= 0.0 ==> r.value == 0.0
  {
    var info :- GetProductStock(s, pid);
    Success(info.costoPromedioJava)
  }

  /** Requesting exactly what is on hand passes the check. */
  lemma {:induction false} ExactAvailablePasses(s: Store, pid: int)
    requires pid in s.products
    ensures ValidateStockDisponible(s, pid, AvailableKg(s, pid)).Success?
  {
  }

  /** A product nobody ever received or sold has all-zero totals. */
  lemma {:induction false} UntouchedProductIsZero(s: Store, pid: int)
    requires pid in s.products
    requires forall i :: 0 <= i < |s.ingresoItems| ==> s.ingresoItems[i].productId != pid
    requires forall i :: 0 <= i < |s.ventaItems| ==> s.ventaItems[i].productId != pid
    ensures GetStockByProduct(s)[pid] == StockInfo(pid, s.products[pid].name, 0.0, 0.0, 0.0, 0.0, 0.0)
  {
    SumZero(s.ingresoItems, (it: IngresoItem) => if it.productId == pid then it.totalKg else 0.0);
    SumZero(s.ingresoItems, (it: IngresoItem) => if it.productId == pid then it.totalJavas else 0.0);
    SumZero(s.ingresoItems, (it: IngresoItem) => if it.productId == pid then it.totalCost else 0.0);
    SumZero(s.ventaItems, (it: VentaItem) => if it.productId == pid then it.quantityKg else 0.0);
    SumZero(s.ventaItems, (it: VentaItem) => if it.productId == pid then it.quantityJavas else 0.0);
  }

  /** Intake totals over two runs of items add up. */
  lemma {:induction false} IngresoTotalsAppend(xs: seq<IngresoItem>, ys: seq<IngresoItem>, pid: int)
    ensures IngresoKg(xs + ys, pid) == IngresoKg(xs, pid) + IngresoKg(ys, pid)
    ensures IngresoJavas(xs + ys, pid) == IngresoJavas(xs, pid) + IngresoJavas(ys, pid)
    ensures IngresoCost(xs + ys, pid) == IngresoCost(xs, pid) + IngresoCost(ys, pid)
  {
    SumAppend(xs, ys, (it: IngresoItem) => if it.productId == pid then it.totalKg else 0.0);
    SumAppend(xs, ys, (it: IngresoItem) => if it.productId == pid then it.totalJavas else 0.0);
    SumAppend(xs, ys, (it: IngresoItem) => if it.productId == pid then it.totalCost else 0.0);
  }

  /** Sales totals over two runs of items add up. */
  lemma {:induction false} VendidoTotalsAppend(xs: seq<VentaItem>, ys: seq<VentaItem>, pid: int)
    ensures VendidoKg(xs + ys, pid) == VendidoKg(xs, pid) + VendidoKg(ys, pid)
    ensures VendidoJavas(xs + ys, pid) == VendidoJavas(xs, pid) + VendidoJavas(ys, pid)
  {
    SumAppend(xs, ys, (it: VentaItem) => if it.productId == pid then it.quantityKg else 0.0);
    SumAppend(xs, ys, (it: VentaItem) => if it.productId == pid then it.quantityJavas else 0.0);
  }

  /** The aggregation reads only products and the two line-item tables:
      customers, debts, payments, users and headers do not affect it. */
  lemma {:induction false} StockReadsOnlyItems(s: Store, t: Store)
    requires s.products == t.products
    requires s.ingresoItems == t.ingresoItems && s.ventaItems == t.ventaItems
    ensures GetStockByProduct(s) == GetStockByProduct(t)
  {
  }

  /** The example of the repository's stock tests: 50 kg in, 100 kg sold. */
  lemma {:induction false} OversoldShowsZero()
    ensures StockDisponibleKg(StockInfo(1, "Test Product", 50.0, 2.5, 100.0, 5.0, 50.0)) == 0.0
    ensures StockDisponibleJavas(StockInfo(1, "Test Product", 50.0, 2.5, 100.0, 5.0, 50.0)) == 0.0
    ensures StockDisponibleKg(StockInfo(1, "Test Product", 100.0, 5.0, 30.0, 1.5, 50.0)) == 70.0
    ensures StockDisponibleJavas(StockInfo(1, "Test Product", 100.0, 5.0, 30.0, 1.5, 50.0)) == 3.5
  {
  }
}
