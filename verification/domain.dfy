/** Entities of the trading backend and the store that holds them. The store
    mirrors the database tables: maps keyed by primary key for the headers and
    flat sequences for the line-item tables, plus the next value of each
    auto-increment key. */
module Domain {
  import opened Wrappers

  datatype VentaType = Caja | Pedido          // cash sale | credit sale
  datatype UserRole = Admin | Vendedor | Inventor

  /** A local-time instant in seconds; `DayOf` is its calendar date. */
  type Timestamp = int

  const SecondsPerDay: int := 86400

  function DayOf(t: Timestamp): int
  {
    t / SecondsPerDay
  }

  datatype Product = Product(name: string, conversionFactor: real)   // kg per java
  datatype Client = Client(name: string, currentDebt: real)
  datatype User = User(username: string, role: UserRole)

  /** Header of a truck intake batch. */
  datatype IngresoLote = IngresoLote(date: Timestamp, truckId: string)

  datatype IngresoItem = IngresoItem(
    loteId: int,
    supplierName: string,
    productId: int,
    totalKg: real,
    conversionFactor: real,
    totalJavas: real,
    costPerJava: real,
    totalCost: real)

  /** Header of a sale. */
  datatype Venta = Venta(
    date: Timestamp,
    vtype: VentaType,
    clientId: Option<int>,
    userId: int,
    totalAmount: real,
    isPrinted: bool)

  datatype VentaItem = VentaItem(
    ventaId: int,
    productId: int,
    quantityKg: real,
    quantityJavas: real,
    conversionFactor: real,
    pricePerKg: real,
    subtotal: real)

  datatype Payment = Payment(id: int, clientId: int, amount: real, notes: Option<string>)

  datatype Store = Store(
    products: map<int, Product>,
    clients: map<int, Client>,
    users: map<int, User>,
    lotes: map<int, IngresoLote>,
    ingresoItems: seq<IngresoItem>,
    ventas: map<int, Venta>,
    ventaItems: seq<VentaItem>,
    payments: seq<Payment>,
    nextLoteId: int,
    nextVentaId: int,
    nextPaymentId: int)

  /** Every key and foreign key of a batch, sale or payment was handed out
      by its sequence, so the next value of a sequence is unused. */
  ghost predicate Valid(s: Store) {
    && (forall k :: k in s.lotes ==> k < s.nextLoteId)
    && (forall i :: 0 <= i < |s.ingresoItems| ==> s.ingresoItems[i].loteId < s.nextLoteId)
    && (forall k :: k in s.ventas ==> k < s.nextVentaId)
    && (forall i :: 0 <= i < |s.ventaItems| ==> s.ventaItems[i].ventaId < s.nextVentaId)
    && (forall i :: 0 <= i < |s.payments| ==> s.payments[i].id < s.nextPaymentId)
  }

  /** No customer owes a negative amount. */
  ghost predicate DebtsNonNegative(clients: map<int, Client>) {
    forall c :: c in clients ==> clients[c].currentDebt >= 0.0
  }

  /** `x -= amount; if x < 0: x = 0` — the floor-clamped debt reduction used
      by payments and by every reversal of a credit sale. */
  function ClampedSub(debt: real, amount: real): (r: real)
    ensures r >= 0.0
    ensures r >= debt - amount
    ensures r == 0.0 || r == debt - amount
  {
    if debt - amount < 0.0 then 0.0 else debt - amount
  }

  /** Sum of `f` over `xs`, accumulated left to right as the Python loops and
      SQL `SUM` do. */
  function Sum<T>(xs: seq<T>, f: T -> real): real
  {
    if |xs| == 0 then 0.0 else Sum(xs[..|xs| - 1], f) + f(xs[|xs| - 1])
  }

  lemma {:induction false} SumAppend<T>(xs: seq<T>, ys: seq<T>, f: T -> real)
    ensures Sum(xs + ys, f) == Sum(xs, f) + Sum(ys, f)
  {
    if |ys| > 0 {
      assert (xs + ys)[..|xs + ys| - 1] == xs + ys[..|ys| - 1];
      SumAppend(xs, ys[..|ys| - 1], f);
    } else {
      assert xs + ys == xs;
    }
  }

  lemma {:induction false} SumPositive<T>(xs: seq<T>, f: T -> real)
    requires |xs| > 0
    requires forall i :: 0 <= i < |xs| ==> f(xs[i]) > 0.0
    ensures Sum(xs, f) > 0.0
  {
    if |xs| > 1 {
      SumPositive(xs[..|xs| - 1], f);
    }
  }

  lemma {:induction false} SumZero<T>(xs: seq<T>, f: T -> real)
    requires forall i :: 0 <= i < |xs| ==> f(xs[i]) == 0.0
    ensures Sum(xs, f) == 0.0
  {
    if |xs| > 0 {
      SumZero(xs[..|xs| - 1], f);
    }
  }

  /** Sums of two runs agree when their terms agree position by position. */
  lemma {:induction false} SumPointwise<T, U>(xs: seq<T>, f: T -> real, ys: seq<U>, g: U -> real)
    requires |xs| == |ys|
    requires forall i :: 0 <= i < |xs| ==> f(xs[i]) == g(ys[i])
    ensures Sum(xs, f) == Sum(ys, g)
  {
    if |xs| > 0 {
      SumPointwise(xs[..|xs| - 1], f, ys[..|ys| - 1], g);
    }
  }

  /** Extending a prefix by one element adds that element's term. */
  lemma {:induction false} SumPrefixStep<T>(xs: seq<T>, f: T -> real, n: nat)
    requires n < |xs|
    ensures Sum(xs[..n + 1], f) == Sum(xs[..n], f) + f(xs[n])
  {
    assert xs[..n + 1][..n] == xs[..n];
  }

  /** Growing a prefix of `ys` by one element, after a fixed `xs`. */
  lemma {:induction false} AppendPrefixStep<T>(xs: seq<T>, ys: seq<T>, n: nat)
    requires 0 < n <= |ys|
    ensures xs + ys[..n] == (xs + ys[..n - 1]) + [ys[n - 1]]
  {
    assert ys[..n] == ys[..n - 1] + [ys[n - 1]];
  }

  /** Elements of `xs` satisfying `p`, in order. */
  function Filter<T>(xs: seq<T>, p: T -> bool): (r: seq<T>)
    ensures |r| <= |xs|
    ensures forall i :: 0 <= i < |r| ==> p(r[i])
  {
    if |xs| == 0 then []
    else if p(xs[|xs| - 1]) then Filter(xs[..|xs| - 1], p) + [xs[|xs| - 1]]
    else Filter(xs[..|xs| - 1], p)
  }

  lemma {:induction false} FilterAppend<T>(xs: seq<T>, ys: seq<T>, p: T -> bool)
    ensures Filter(xs + ys, p) == Filter(xs, p) + Filter(ys, p)
  {
    if |ys| > 0 {
      assert (xs + ys)[..|xs + ys| - 1] == xs + ys[..|ys| - 1];
      FilterAppend(xs, ys[..|ys| - 1], p);
    } else {
      assert xs + ys == xs;
    }
  }

  lemma {:induction false} FilterAll<T>(xs: seq<T>, p: T -> bool)
    requires forall i :: 0 <= i < |xs| ==> p(xs[i])
    ensures Filter(xs, p) == xs
  {
    if |xs| > 0 {
      FilterAll(xs[..|xs| - 1], p);
    }
  }

  lemma {:induction false} FilterNone<T>(xs: seq<T>, p: T -> bool)
    requires forall i :: 0 <= i < |xs| ==> !p(xs[i])
    ensures Filter(xs, p) == []
  {
    if |xs| > 0 {
      FilterNone(xs[..|xs| - 1], p);
    }
  }

  /** The line items of sale `id`, in table order (`venta.items`). */
  function ItemsOfVenta(items: seq<VentaItem>, id: int): (r: seq<VentaItem>)
    ensures forall i :: 0 <= i < |r| ==> r[i].ventaId == id
  {
    Filter(items, (it: VentaItem) => it.ventaId == id)
  }

  /** The line items left once sale `id` and its items are deleted. */
  function DropVentaItems(items: seq<VentaItem>, id: int): (r: seq<VentaItem>)
    ensures forall i :: 0 <= i < |r| ==> r[i].ventaId != id
  {
    Filter(items, (it: VentaItem) => it.ventaId != id)
  }

  /** Deleting a sale's lines from a concatenation deletes them from each part. */
  lemma {:induction false} DropVentaItemsAppend(xs: seq<VentaItem>, ys: seq<VentaItem>, id: int)
    ensures DropVentaItems(xs + ys, id) == DropVentaItems(xs, id) + DropVentaItems(ys, id)
  {
    FilterAppend(xs, ys, (it: VentaItem) => it.ventaId != id);
  }

  /** Lines of other sales all survive the deletion, in order. */
  lemma {:induction false} DropVentaItemsKeepsOthers(xs: seq<VentaItem>, id: int)
    requires forall i :: 0 <= i < |xs| ==> xs[i].ventaId != id
    ensures DropVentaItems(xs, id) == xs
  {
    FilterAll(xs, (it: VentaItem) => it.ventaId != id);
  }

  /** Lines all belonging to the deleted sale all go. */
  lemma {:induction false} DropVentaItemsRemovesOwn(xs: seq<VentaItem>, id: int)
    requires forall i :: 0 <= i < |xs| ==> xs[i].ventaId == id
    ensures DropVentaItems(xs, id) == []
  {
    FilterNone(xs, (it: VentaItem) => it.ventaId != id);
  }

  /** The line items of intake batch `id`, in table order (`lote.items`). */
  function ItemsOfLote(items: seq<IngresoItem>, id: int): (r: seq<IngresoItem>)
    ensures forall i :: 0 <= i < |r| ==> r[i].loteId == id
  {
    Filter(items, (it: IngresoItem) => it.loteId == id)
  }
}
