/** The intake endpoints' own rules: the batch response with its totals and
    the available-stock listing. */
module IngresosRouter {
  import opened Wrappers
  import opened Domain
  import opened Stock
  import Ingresos

  datatype IngresoItemResponse = IngresoItemResponse(
    supplierName: string,
    productId: int,
    productName: Option<string>,
    totalKg: real,
    conversionFactor: real,
    totalJavas: real,
    costPerJava: real,
    totalCost: real)

  datatype LoteResponse = LoteResponse(
    id: int,
    date: Timestamp,
    truckId: string,
    items: seq<IngresoItemResponse>,
    totalKg: real,
    totalJavas: real,
    totalCost: real)

  /** One row of `GET /ingresos/stock/disponible`. */
  datatype StockOut = StockOut(productId: int, productName: string, totalJavasAvailable: real)

  // Batch totals: sums of the line fields.

  function LoteKg(items: seq<IngresoItem>): real {
    Sum(items, (it: IngresoItem) => it.totalKg)
  }

  function LoteJavas(items: seq<IngresoItem>): real {
    Sum(items, (it: IngresoItem) => it.totalJavas)
  }

  function LoteCost(items: seq<IngresoItem>): real {
    Sum(items, (it: IngresoItem) => it.totalCost)
  }

  /** One response line: the stored line with its product's name, if the
      product still exists. */
  function FormatIngresoItem(s: Store, it: IngresoItem): (r: IngresoItemResponse)
    ensures r.productName.Some? <==> it.productId in s.products
    ensures it.productId in s.products ==> r.productName == Some(s.products[it.productId].name)
    ensures && r.supplierName == it.supplierName && r.productId == it.productId && r.totalKg == it.totalKg
            && r.conversionFactor == it.conversionFactor && r.totalJavas == it.totalJavas
            && r.costPerJava == it.costPerJava && r.totalCost == it.totalCost
  {
    IngresoItemResponse(
      it.supplierName, it.productId,
      if it.productId in s.products then Some(s.products[it.productId].name) else None,
      it.totalKg, it.conversionFactor, it.totalJavas, it.costPerJava, it.totalCost)
  }

  /** `_format_lote_response`: one response line per line of the batch, in
      table order, and running totals of kilograms, javas and cost that end
      as the sums over the batch's lines (0 for a batch without lines). */
  method FormatLoteResponse(s: Store, id: int) returns (r: LoteResponse)
    requires id in s.lotes
    ensures r.id == id && r.date == s.lotes[id].date && r.truckId == s.lotes[id].truckId
    ensures |r.items| == |ItemsOfLote(s.ingresoItems, id)|
    ensures forall i :: 0 <= i < |r.items| ==> r.items[i] == FormatIngresoItem(s, ItemsOfLote(s.ingresoItems, id)[i])
    ensures r.totalKg == LoteKg(ItemsOfLote(s.ingresoItems, id))
    ensures r.totalJavas == LoteJavas(ItemsOfLote(s.ingresoItems, id))
    ensures r.totalCost == LoteCost(ItemsOfLote(s.ingresoItems, id))
    ensures |ItemsOfLote(s.ingresoItems, id)| == 0 ==> r.totalKg == 0.0 && r.totalJavas == 0.0 && r.totalCost == 0.0
  {
    var lines := ItemsOfLote(s.ingresoItems, id);
    var items: seq<IngresoItemResponse> := [];
    var totalKg, totalJavas, totalCost := 0.0, 0.0, 0.0;
    var i := 0;
    assert lines[..0] == [];
    while i < |lines|
      invariant 0 <= i <= |lines|
      invariant |items| == i
      invariant forall k :: 0 <= k < i ==> items[k] == FormatIngresoItem(s, lines[k])
      invariant totalKg == LoteKg(lines[..i])
      invariant totalJavas == LoteJavas(lines[..i])
      invariant totalCost == LoteCost(lines[..i])
    {
      var it := lines[i];
      items := items + [FormatIngresoItem(s, it)];
      SumPrefixStep(lines, (it: IngresoItem) => it.totalKg, i);
      SumPrefixStep(lines, (it: IngresoItem) => it.totalJavas, i);
      SumPrefixStep(lines, (it: IngresoItem) => it.totalCost, i);
      totalKg := totalKg + it.totalKg;
      totalJavas := totalJavas + it.totalJavas;
      totalCost := totalCost + it.totalCost;
      i := i + 1;
    }
    assert lines[..i] == lines;
    r := LoteResponse(id, s.lotes[id].date, s.lotes[id].truckId, items, totalKg, totalJavas, totalCost);
  }

  /** The kilograms a new batch reports are the kilograms its request listed,
      and it reports one line per requested line. */
  lemma {:induction false} NewLoteTotals(
    s: Store, truckId: string, inputs: seq<Ingresos.IngresoItemInput>, now: Timestamp, t: Store)
    requires Valid(s)
    requires Ingresos.CreateIngresoLote(s, truckId, inputs, now) == Success(t)
    ensures |ItemsOfLote(t.ingresoItems, s.nextLoteId)| == |inputs|
    ensures LoteKg(ItemsOfLote(t.ingresoItems, s.nextLoteId))
            == Sum(inputs, (input: Ingresos.IngresoItemInput) => input.totalKg.GetOr(0.0))
  {
    var items := Ingresos.NewLoteItems(s, truckId, inputs, now);
    assert t == Ingresos.RecordLote(s, truckId, now, items);
    forall k | 0 <= k < |items|
      ensures items[k].totalKg == inputs[k].totalKg.GetOr(0.0)
    {
      assert Ingresos.StoredAs(s, s.nextLoteId, inputs[k], items[k]);
    }
    SumPointwise(items, (it: IngresoItem) => it.totalKg,
                 inputs, (input: Ingresos.IngresoItemInput) => input.totalKg.GetOr(0.0));
  }

  /** `get_stock`: one row per existing product, carrying that product's
      available javas: intake less sales, or 0 once oversold. */
  function GetStock(s: Store): (m: map<int, StockOut>)
    ensures m.Keys == s.products.Keys
    ensures forall pid :: pid in m ==>
              && m[pid].productId == pid
              && m[pid].productName == s.products[pid].name
              && m[pid].totalJavasAvailable >= 0.0
              && (IngresoJavas(s.ingresoItems, pid) >= VendidoJavas(s.ventaItems, pid) ==>
                    m[pid].totalJavasAvailable == IngresoJavas(s.ingresoItems, pid) - VendidoJavas(s.ventaItems, pid))
              && (IngresoJavas(s.ingresoItems, pid) < VendidoJavas(s.ventaItems, pid) ==>
                    m[pid].totalJavasAvailable == 0.0)
  {
    var stock := GetStockByProduct(s);
    map pid | pid in stock :: StockOut(stock[pid].productId, stock[pid].productName, StockDisponibleJavas(stock[pid]))
  }

  /** A new batch raises a product's listed javas by the javas it brought of
      that product, unless the product was oversold before and after. */
  lemma {:induction false} NewLoteRaisesListedJavas(
    s: Store, truckId: string, inputs: seq<Ingresos.IngresoItemInput>, now: Timestamp, t: Store, pid: int)
    requires Ingresos.CreateIngresoLote(s, truckId, inputs, now) == Success(t)
    requires pid in s.products
    requires IngresoJavas(s.ingresoItems, pid) >= VendidoJavas(s.ventaItems, pid)
    ensures pid in GetStock(t)
    ensures GetStock(t)[pid].totalJavasAvailable
            == GetStock(s)[pid].totalJavasAvailable + IngresoJavas(t.ingresoItems[|s.ingresoItems|..], pid)
  {
    var items := Ingresos.CommittedLote(s, truckId, inputs, now);
    assert t.ingresoItems[|s.ingresoItems|..] == items;
    Ingresos.CreateIngresoLoteAddsStock(s, truckId, inputs, now, pid);
    forall k | 0 <= k < |items|
      ensures items[k].totalJavas >= 0.0
    {
      assert Ingresos.StoredAs(s, s.nextLoteId, inputs[k], items[k]);
    }
    NonNegativeJavas(items, pid);
  }

  /** Intake javas of a product are never negative when no line's are. */
  lemma {:induction false} NonNegativeJavas(items: seq<IngresoItem>, pid: int)
    requires forall i :: 0 <= i < |items| ==> items[i].totalJavas >= 0.0
    ensures IngresoJavas(items, pid) >= 0.0
  {
    if |items| > 0 {
      NonNegativeJavas(items[..|items| - 1], pid);
    }
  }
}
