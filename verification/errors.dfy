/** The typed error taxonomy of the services (`AppException` and its
    subclasses), plus the bare HTTP errors the routers raise directly. */
module Errors {
  import opened Wrappers
  import opened Text

  /** A value stored under a key of an error's `details` dictionary. */
  datatype DetailValue = Str(s: string) | Num(x: real)

  /** One constructor per `AppException` subclass, holding its constructor
      arguments (`Duplicate.column` is the Python `field` argument). `NotFound.identifier` is the optional integer id; a `field`
      or `rule` of `None` or `""` counts as absent, as in Python. */
  datatype AppError =
    | NotFound(resource: string, identifier: Option<int>)
    | Validation(message: string, field: Option<string>)
    | StockInsuficiente(productName: string, available: real, requested: real)
    | Authentication(message: string)
    | Authorization(message: string)
    | Duplicate(resource: string, column: string, value: string)
    | BusinessRule(message: string, rule: Option<string>)

  /** `HTTPException(status_code, detail)` raised directly by an endpoint. */
  datatype HttpError = HttpError(status: int, detail: string)

  /** Either kind of failure an endpoint can end with. */
  datatype ApiError = App(app: AppError) | Http(http: HttpError)

  /** The `{"error": {...}}` body produced by `to_dict`. */
  datatype ErrorBody = ErrorBody(code: string, message: string, details: map<string, DetailValue>)

  /** Python truthiness of an optional identifier: `None` and `0` are falsy. */
  predicate IdTruthy(id: Option<int>) {
    id.Some? && id.value != 0
  }

  /** Python truthiness of an optional string: `None` and `""` are falsy. */
  predicate StrTruthy(s: Option<string>) {
    s.Some? && s.value != ""
  }

  function Code(e: AppError): (c: string)
    ensures e.NotFound? <==> c == "NOT_FOUND"
    ensures e.Validation? <==> c == "VALIDATION_ERROR"
    ensures e.StockInsuficiente? <==> c == "STOCK_INSUFICIENTE"
    ensures e.Authentication? <==> c == "AUTHENTICATION_ERROR"
    ensures e.Authorization? <==> c == "AUTHORIZATION_ERROR"
    ensures e.Duplicate? <==> c == "DUPLICATE_ERROR"
    ensures e.BusinessRule? <==> c == "BUSINESS_RULE_ERROR"
  {
    match e
    case NotFound(_, _) => "NOT_FOUND"
    case Validation(_, _) => "VALIDATION_ERROR"
    case StockInsuficiente(_, _, _) => "STOCK_INSUFICIENTE"
    case Authentication(_) => "AUTHENTICATION_ERROR"
    case Authorization(_) => "AUTHORIZATION_ERROR"
    case Duplicate(_, _, _) => "DUPLICATE_ERROR"
    case BusinessRule(_, _) => "BUSINESS_RULE_ERROR"
  }

  /** HTTP status each error kind is reported with. */
  function Status(e: AppError): (st: int)
    ensures e.NotFound? ==> st == 404
    ensures e.Validation? ==> st == 422
    ensures e.StockInsuficiente? || e.BusinessRule? ==> st == 400
    ensures e.Authentication? ==> st == 401
    ensures e.Authorization? ==> st == 403
    ensures e.Duplicate? ==> st == 409
    ensures 400 <= st < 500
  {
    match e
    case NotFound(_, _) => 404
    case Validation(_, _) => 422
    case StockInsuficiente(_, _, _) => 400
    case Authentication(_) => 401
    case Authorization(_) => 403
    case Duplicate(_, _, _) => 409
    case BusinessRule(_, _) => 400
  }

  /** The human-readable message. For `StockInsuficiente` only the product
      part of the text is modelled (the figures are float-formatted). */
  function Message(e: AppError): (m: string)
    ensures e.NotFound? && !IdTruthy(e.identifier) ==> m == e.resource + " no encontrado"
    ensures e.NotFound? && IdTruthy(e.identifier) ==>
      m == e.resource + " con ID " + IntToString(e.identifier.value) + " no encontrado"
    ensures e.Validation? || e.BusinessRule? || e.Authentication? || e.Authorization? ==> m == e.message
  {
    match e
    case NotFound(resource, identifier) =>
      if IdTruthy(identifier) then resource + " con ID " + IntToString(identifier.value) + " no encontrado"
      else resource + " no encontrado"
    case Validation(message, _) => message
    case StockInsuficiente(name, _, _) => "Stock insuficiente de " + name
    case Authentication(message) => message
    case Authorization(message) => message
    case Duplicate(resource, field, value) => "Ya existe un " + resource + " con " + field + ": " + value
    case BusinessRule(message, _) => message
  }

  /** The `details` dictionary (`details or {}` in the base class). */
  function Details(e: AppError): (d: map<string, DetailValue>)
    ensures "field" in d <==> (e.Validation? && StrTruthy(e.field)) || e.Duplicate?
    ensures e.Validation? && StrTruthy(e.field) ==> d == map["field" := Str(e.field.value)]
    ensures e.StockInsuficiente? ==>
              && d.Keys == {"product", "available_kg", "requested_kg"}
              && d["product"] == Str(e.productName)
              && d["available_kg"] == Num(e.available) && d["requested_kg"] == Num(e.requested)
    ensures e.Duplicate? ==>
              && d.Keys == {"resource", "field", "value"}
              && d["resource"] == Str(e.resource) && d["field"] == Str(e.column) && d["value"] == Str(e.value)
    ensures e.BusinessRule? ==> ("rule" in d <==> StrTruthy(e.rule))
    ensures e.NotFound? || e.Authentication? || e.Authorization? ==> d == map[]
  {
    match e
    case Validation(_, field) =>
      if StrTruthy(field) then map["field" := Str(field.value)] else map[]
    case StockInsuficiente(name, available, requested) =>
      map["product" := Str(name), "available_kg" := Num(available), "requested_kg" := Num(requested)]
    case Duplicate(resource, field, value) =>
      map["resource" := Str(resource), "field" := Str(field), "value" := Str(value)]
    case BusinessRule(_, rule) =>
      if StrTruthy(rule) then map["rule" := Str(rule.value)] else map[]
    case _ => map[]
  }

  /** `to_dict`: code, message and details wrapped in one body. The body's
      `details` is empty exactly for the kinds that pass no details, and for a
      validation or business-rule error whose field or rule is falsy. */
  function ToDict(e: AppError): (b: ErrorBody)
    ensures b.code == Code(e) && b.message == Message(e) && b.details == Details(e)
    ensures b.details == map[] <==>
              || e.NotFound? || e.Authentication? || e.Authorization?
              || (e.Validation? && !StrTruthy(e.field))
              || (e.BusinessRule? && !StrTruthy(e.rule))
  {
    ErrorBody(Code(e), Message(e), Details(e))
  }

  /** The error both workflows raise for a line without a product,
      numbering lines from 1. */
  function ProductRequired(idx: nat): (e: AppError)
    ensures e.Validation? && e.field == Some("product_id")
  {
    Validation("Producto requerido en item " + NatToString(idx + 1), Some("product_id"))
  }

  /** An identifier of 0 is falsy, so it is left out of the message exactly as
      a missing identifier is. */
  lemma {:induction false} NotFoundZeroIdOmitted(resource: string)
    ensures Message(NotFound(resource, Some(0))) == Message(NotFound(resource, None))
  {
  }

  /** Two different truthy identifiers give two different messages. */
  lemma {:induction false} NotFoundMessagesDistinguishIds(resource: string, a: int, b: int)
    requires a != 0 && b != 0 && a != b
    ensures Message(NotFound(resource, Some(a))) != Message(NotFound(resource, Some(b)))
  {
    var ma := Message(NotFound(resource, Some(a)));
    var mb := Message(NotFound(resource, Some(b)));
    var prefix := resource + " con ID ";
    var suffix := " no encontrado";
    if ma == mb {
      var sa := IntToString(a);
      var sb := IntToString(b);
      assert ma == prefix + sa + suffix;
      assert mb == prefix + sb + suffix;
      assert |sa| == |sb|;
      assert sa == ma[|prefix|..|prefix| + |sa|];
      assert sb == mb[|prefix|..|prefix| + |sb|];
      IntToStringInjective(a, b);
    }
  }
}
