/** The two line calculators: intake cost normalisation
    (`calculate_item_costs`) and sale line pricing (`calculate_venta_item`).
    Both are pure and exact; rounding happens only when responses are shown. */
module Calculators {
  import opened Wrappers
  import opened Errors

  const ModeKg: string := "KG"
  const ModeJava: string := "JAVA"

  const MsgTotalKg: string := "El total en KG debe ser mayor a 0"
  const MsgFactor: string := "El factor de conversión debe ser mayor a 0"
  const MsgCostPrice: string := "El precio de costo debe ser mayor a 0"
  const MsgMode: string := "Modo de precio debe ser 'KG' o 'JAVA'"
  const MsgQuantityKg: string := "La cantidad en KG debe ser mayor a 0"
  const MsgPricePerKg: string := "El precio por KG debe ser mayor a 0"

  /** `CalculatedItem`: an intake line in javas with its cost normalised per java. */
  datatype CalculatedItem = CalculatedItem(totalJavas: real, costPerJava: real, totalCost: real)

  /** `CalculatedVentaItem`: a sale line with its javas and exact subtotal. */
  datatype CalculatedVentaItem = CalculatedVentaItem(
    quantityKg: real,
    quantityJavas: real,
    conversionFactor: real,
    pricePerKg: real,
    subtotal: real)

  predicate ValidMode(mode: string) {
    mode == ModeKg || mode == ModeJava
  }

  /** Converts an intake line given in kg, at `factor` kg per java, with a cost
      quoted per KG or per JAVA, into javas, cost per java and total cost. */
  function CalculateItemCosts(totalKg: real, factor: real, costInput: real, mode: string)
    : (r: Result<CalculatedItem, AppError>)
    // the checks fail in this order, each naming its field
    ensures totalKg <= 0.0 ==> r == Failure(Validation(MsgTotalKg, Some("total_kg")))
    ensures totalKg > 0.0 && factor <= 0.0 ==>
              r == Failure(Validation(MsgFactor, Some("conversion_factor")))
    ensures totalKg > 0.0 && factor > 0.0 && costInput <= 0.0 ==>
              r == Failure(Validation(MsgCostPrice, Some("cost_price_input")))
    ensures totalKg > 0.0 && factor > 0.0 && costInput > 0.0 && !ValidMode(mode) ==>
              r == Failure(Validation(MsgMode, Some("cost_price_mode")))
    ensures r.Success? <==> totalKg > 0.0 && factor > 0.0 && costInput > 0.0 && ValidMode(mode)
    // javas convert back to the kilograms they came from
    ensures r.Success? ==> r.value.totalJavas * factor == totalKg
    ensures r.Success? ==> r.value.totalCost == r.value.costPerJava * r.value.totalJavas
    ensures r.Success? ==>
              r.value.totalJavas > 0.0 && r.value.costPerJava > 0.0 && r.value.totalCost > 0.0
    // a price per kg is scaled up to a price per java; a price per java is kept
    ensures r.Success? && mode == ModeKg ==>
              r.value.costPerJava == costInput * factor && r.value.totalCost == costInput * totalKg
    ensures r.Success? && mode == ModeJava ==>
              r.value.costPerJava == costInput && r.value.totalCost * factor == costInput * totalKg
  {
    var costPerJava := if mode == ModeKg then costInput * factor else costInput;
    :- Need(totalKg > 0.0, Validation(MsgTotalKg, Some("total_kg")));
    :- Need(factor > 0.0, Validation(MsgFactor, Some("conversion_factor")));
    :- Need(costInput > 0.0, Validation(MsgCostPrice, Some("cost_price_input")));
    :- Need(ValidMode(mode), Validation(MsgMode, Some("cost_price_mode")));
    var totalJavas := totalKg / factor;
    var totalCost := costPerJava * totalJavas;
    JavasTimesFactor(totalKg, factor, costInput);
    Success(CalculatedItem(totalJavas, costPerJava, totalCost))
  }

  lemma {:induction false} JavasTimesFactor(kg: real, factor: real, price: real)
    requires factor > 0.0
    ensures (kg / factor) * factor == kg
    ensures (price * factor) * (kg / factor) == price * kg
    ensures (price * (kg / factor)) * factor == price * kg
  {
    var j := kg / factor;
    assert j * factor == kg;
    calc {
      (price * factor) * j;
      price * (j * factor);
      price * kg;
    }
  }

  /** The two cost modes agree: quoting p per KG is the same line as quoting
      p times the factor per JAVA. */
  lemma {:induction false} ModeEquivalence(totalKg: real, factor: real, pricePerKg: real)
    requires totalKg > 0.0 && factor > 0.0 && pricePerKg > 0.0
    ensures CalculateItemCosts(totalKg, factor, pricePerKg, ModeKg)
         == CalculateItemCosts(totalKg, factor, pricePerKg * factor, ModeJava)
  {
    var a := CalculateItemCosts(totalKg, factor, pricePerKg, ModeKg);
    var b := CalculateItemCosts(totalKg, factor, pricePerKg * factor, ModeJava);
    assert a.value.totalJavas * factor == b.value.totalJavas * factor;
    assert a.value.totalJavas == b.value.totalJavas;
    assert a.value.costPerJava == b.value.costPerJava;
    assert a.value.totalCost == b.value.totalCost;
    assert a.value == b.value;
  }

  /** Prices a sale line of `quantityKg` kg of a product stocked at `factor`
      kg per java, at `pricePerKg`. */
  function CalculateVentaItem(quantityKg: real, factor: real, pricePerKg: real)
    : (r: Result<CalculatedVentaItem, AppError>)
    ensures quantityKg <= 0.0 ==> r == Failure(Validation(MsgQuantityKg, Some("quantity_kg")))
    ensures quantityKg > 0.0 && factor <= 0.0 ==>
              r == Failure(Validation(MsgFactor, Some("conversion_factor")))
    ensures quantityKg > 0.0 && factor > 0.0 && pricePerKg <= 0.0 ==>
              r == Failure(Validation(MsgPricePerKg, Some("price_per_kg")))
    ensures r.Success? <==> quantityKg > 0.0 && factor > 0.0 && pricePerKg > 0.0
    // the inputs are echoed unchanged
    ensures r.Success? ==>
              && r.value.quantityKg == quantityKg
              && r.value.conversionFactor == factor
              && r.value.pricePerKg == pricePerKg
    // javas convert back to the kilograms sold; the subtotal is exact
    ensures r.Success? ==> r.value.quantityJavas * factor == quantityKg
    ensures r.Success? ==> r.value.subtotal == quantityKg * pricePerKg
    ensures r.Success? ==> r.value.quantityJavas > 0.0 && r.value.subtotal > 0.0
  {
    var subtotal := quantityKg * pricePerKg;
    :- Need(quantityKg > 0.0, Validation(MsgQuantityKg, Some("quantity_kg")));
    :- Need(factor > 0.0, Validation(MsgFactor, Some("conversion_factor")));
    :- Need(pricePerKg > 0.0, Validation(MsgPricePerKg, Some("price_per_kg")));
    JavasTimesFactor(quantityKg, factor, pricePerKg);
    Success(CalculatedVentaItem(quantityKg, quantityKg / factor, factor, pricePerKg, subtotal))
  }

  /** The worked cases the repository's calculator tests check. */
  lemma {:induction false} CalculatorExamples()
    ensures CalculateItemCosts(100.0, 20.0, 50.0, ModeJava) == Success(CalculatedItem(5.0, 50.0, 250.0))
    ensures CalculateItemCosts(100.0, 20.0, 2.5, ModeKg) == Success(CalculatedItem(5.0, 50.0, 250.0))
    ensures CalculateItemCosts(150.0, 25.0, 100.0, ModeJava) == Success(CalculatedItem(6.0, 100.0, 600.0))
    ensures CalculateVentaItem(50.0, 20.0, 10.0) == Success(CalculatedVentaItem(50.0, 2.5, 20.0, 10.0, 500.0))
    ensures CalculateVentaItem(100.0, 25.0, 8.0).value.subtotal == 800.0
    ensures CalculateVentaItem(33.33, 20.0, 15.50).value.subtotal == 516.615
  {
  }
}
