/** The product form shared by the add screen (`products.tsx`) and the edit
    screen (`editproducts.tsx`): the per-field rule table, the submit-time
    error map and the stock stepper. */
module ProductForm {
  import opened Wrappers
  import opened Ascii
  import opened Decimal
  import opened Forms

  /** The two screens differ only in the `nombre` rule. */
  datatype Screen = AddScreen | EditScreen

  /** JavaScript's number readers, left abstract; `None` is NaN. */
  datatype Parsers = Parsers(
    parseFloat: string -> Option<real>,
    toNumber: string -> Option<real>,
    parseInt: string -> Option<int>)

  /** The keys of `newProduct`, plus `imagen`, which only ever appears in
      the error map. */
  datatype ProductKey =
    | CodigoBarras | Nombre | Descripcion | TipoProducto | IdCategoria
    | Marca | Ubicacion | CostoMonto | PrecioMonto | MargenGanancia
    | Stock | StockMinimo | IdCostoMoneda | IdPrecioMoneda | IdProveedor
    | Imagen

  type ProductFields = map<ProductKey, string>

  /** The keys of `newProduct`, in declaration order (`Object.keys`). */
  const ProductKeys: seq<ProductKey> := [
    CodigoBarras, Nombre, Descripcion, TipoProducto, IdCategoria,
    Marca, Ubicacion, CostoMonto, PrecioMonto, MargenGanancia,
    Stock, StockMinimo, IdCostoMoneda, IdPrecioMoneda, IdProveedor]

  /** The keys that have an entry in `validationRules`. */
  predicate HasRule(k: ProductKey)
  {
    !(k == IdCostoMoneda || k == IdPrecioMoneda || k == Imagen)
  }

  /** A product form holds every key of `newProduct` and nothing else. */
  predicate Complete(form: ProductFields)
  {
    forall k: ProductKey :: k in form <==> k != Imagen
  }

  /** `Object.keys(newProduct)` lists exactly the keys other than `imagen`. */
  lemma ProductKeysListed(k: ProductKey)
    ensures k in ProductKeys <==> k != Imagen
  {
    match k
    case Imagen =>
      forall i | 0 <= i < |ProductKeys| ensures ProductKeys[i] != Imagen {}
    case _ =>
  }

  const ImageRequired: string := "La imagen del producto es obligatoria"

  /** `x <= c`, false when `x` is NaN. */
  predicate AtMost(x: Option<real>, c: real)
  {
    x.Some? && x.value <= c
  }

  /** `x < y`, false when either side is NaN. */
  predicate Below(x: Option<real>, y: Option<real>)
  {
    x.Some? && y.Some? && x.value < y.value
  }

  /** `Number(form.stock_minimo)`; a missing field reads as NaN. */
  function MinimumStock(p: Parsers, form: ProductFields): Option<real>
  {
    if StockMinimo in form then p.toNumber(form[StockMinimo]) else None
  }

  /** `nombre`: required; the add screen also forbids digits; at most 50. */
  function NombreRule(screen: Screen, s: string): (msg: string)
    ensures msg == "" <==> !IsBlank(s) && (screen.EditScreen? || !ContainsDigit(s)) && |s| <= 50
    ensures IsBlank(s) ==> msg == "El nombre es obligatorio"
    ensures !IsBlank(s) && screen.AddScreen? && ContainsDigit(s) ==> msg == "El nombre no puede contener números"
  {
    if Trim(s) == "" then "El nombre es obligatorio"
    else if screen.AddScreen? && ContainsDigit(s) then "El nombre no puede contener números"
    else if |s| > 50 then "El nombre no puede exceder 50 caracteres"
    else ""
  }

  /** `codigo_barras`: required, 8 to 20 characters. */
  function CodigoRule(s: string): (msg: string)
    ensures msg == "" <==> !IsBlank(s) && 8 <= |s| <= 20
  {
    if Trim(s) == "" then "El código de barras es obligatorio"
    else if |s| < 8 then "El código debe tener al menos 8 caracteres"
    else if |s| > 20 then "El código no puede exceder 20 caracteres"
    else ""
  }

  /** `marca`: optional, no digit, at most 30. */
  function MarcaRule(s: string): (msg: string)
    ensures msg == "" <==> !ContainsDigit(s) && |s| <= 30
    ensures s == "" ==> msg == ""
  {
    if s != "" && ContainsDigit(s) then "La marca no puede contener números"
    else if |s| > 30 then "La marca no puede exceder 30 caracteres"
    else ""
  }

  /** A text field bounded by `limit` characters (`ubicacion`, `descripcion`). */
  function MaxLengthRule(s: string, limit: nat, tooLong: string): (msg: string)
    requires tooLong != ""
    ensures msg == "" <==> |s| <= limit
  {
    if |s| > limit then tooLong else ""
  }

  /** `costo_monto` / `precio_monto`: required, and `parseFloat` must not
      give a number at or below zero (NaN passes). */
  function AmountRule(p: Parsers, s: string, required: string, notPositive: string): (msg: string)
    requires required != "" && notPositive != ""
    ensures msg == "" <==> !IsBlank(s) && !AtMost(p.parseFloat(s), 0.0)
  {
    if Trim(s) == "" then required
    else if AtMost(p.parseFloat(s), 0.0) then notPositive
    else ""
  }

  /** `stock`: required, not negative and not below `Number(stock_minimo)`. */
  function StockRule(p: Parsers, s: string, minimum: Option<real>): (msg: string)
    ensures msg == "" <==> !IsBlank(s) && !Below(p.toNumber(s), Some(0.0)) && !Below(p.toNumber(s), minimum)
  {
    if Trim(s) == "" then "El stock es obligatorio"
    else if Below(p.toNumber(s), Some(0.0)) then "El stock no puede ser negativo"
    else if Below(p.toNumber(s), minimum) then "El stock no puede ser menor al stock mínimo"
    else ""
  }

  /** `stock_minimo`: required and not negative. */
  function StockMinimoRule(p: Parsers, s: string): (msg: string)
    ensures msg == "" <==> !IsBlank(s) && !Below(p.toNumber(s), Some(0.0))
  {
    if Trim(s) == "" then "El stock mínimo es obligatorio"
    else if Below(p.toNumber(s), Some(0.0)) then "El stock mínimo no puede ser negativo"
    else ""
  }

  /** A select that must not be left on its empty option (`!value`). */
  function SelectedRule(s: string, missing: string): (msg: string)
    requires missing != ""
    ensures msg == "" <==> s != ""
  {
    if s == "" then missing else ""
  }

  /** `margen_ganancia`: optional; when given, `Number` must not be at or
      below 0 nor above 100 (NaN passes). */
  function MargenRule(p: Parsers, s: string): (msg: string)
    ensures msg == "" <==> s == "" || !(AtMost(p.toNumber(s), 0.0) || Below(Some(100.0), p.toNumber(s)))
    ensures p.toNumber(s).Some? && 0.0 < p.toNumber(s).value <= 100.0 ==> msg == ""
  {
    if s != "" && (AtMost(p.toNumber(s), 0.0) || Below(Some(100.0), p.toNumber(s)))
    then "El margen debe ser mayor a 0 y máx 100"
    else ""
  }

  /** `validateField(field, value)` of the given screen; `form` is the
      current `newProduct`, read by the `stock` rule. */
  function ValidateField(p: Parsers, screen: Screen, form: ProductFields, field: ProductKey, value: string): (error: string)
    ensures field in {TipoProducto, IdCategoria, IdProveedor} ==> (error == "" <==> value != "")
  {
    match field
    case Nombre => NombreRule(screen, value)
    case CodigoBarras => CodigoRule(value)
    case Marca => MarcaRule(value)
    case Ubicacion => MaxLengthRule(value, 50, "La ubicación no puede exceder 50 caracteres")
    case CostoMonto => AmountRule(p, value, "El costo es obligatorio", "El costo debe ser mayor a 0")
    case PrecioMonto => AmountRule(p, value, "El precio es obligatorio", "El precio debe ser mayor a 0")
    case Stock => StockRule(p, value, MinimumStock(p, form))
    case StockMinimo => StockMinimoRule(p, value)
    case Descripcion => MaxLengthRule(value, 500, "La descripción no puede exceder 500 caracteres")
    case TipoProducto => SelectedRule(value, "Debe seleccionar un tipo de producto")
    case IdCategoria => SelectedRule(value, "Debe seleccionar una categoría")
    case IdProveedor => SelectedRule(value, "Debe seleccionar un proveedor")
    case MargenGanancia => MargenRule(p, value)
    case IdCostoMoneda => ""
    case IdPrecioMoneda => ""
    case Imagen => ""
  }

  /** The currency selects and the image have no rule: any value passes. */
  lemma UnruledFieldsPass(p: Parsers, screen: Screen, form: ProductFields, field: ProductKey, value: string)
    requires !HasRule(field)
    ensures ValidateField(p, screen, form, field, value) == ""
  {
  }

  /** The rule table of a screen with `newProduct` as it currently is. */
  function Rules(p: Parsers, screen: Screen, form: ProductFields): (ProductKey, string) -> string
  {
    (k, v) => ValidateField(p, screen, form, k, v)
  }

  /** A form that passes the `id_proveedor` rule has a provider selected. */
  lemma ProviderChosen(p: Parsers, screen: Screen, form: ProductFields)
    requires Complete(form)
    requires Rules(p, screen, form)(IdProveedor, form[IdProveedor]) == ""
    ensures form[IdProveedor] != ""
  {
    assert ValidateField(p, screen, form, IdProveedor, form[IdProveedor]) == "";
  }

  /** Every product field passes its rule. */
  predicate AllFieldsValid(rule: (ProductKey, string) -> string, form: ProductFields)
    requires Complete(form)
  {
    forall k: ProductKey :: k != Imagen ==> rule(k, form[k]) == ""
  }

  /** The validation pass of `handleSubmit` with the screen's `rule` table:
      the error map has one entry per failing field and `imagen` when the
      screen has no image to save; it is empty exactly when there is an image
      and every field passes. */
  method SubmitErrors(rule: (ProductKey, string) -> string, form: ProductFields, hasImage: bool)
    returns (errors: ProductFields)
    requires Complete(form)
    ensures forall k :: k in errors <==> (k != Imagen && rule(k, form[k]) != "") || (k == Imagen && !hasImage)
    ensures forall k :: k in errors && k != Imagen ==> errors[k] == rule(k, form[k])
    ensures Imagen in errors ==> errors[Imagen] == ImageRequired
    ensures errors == map[] <==> hasImage && AllFieldsValid(rule, form)
  {
    forall k | true ensures k in ProductKeys <==> k != Imagen {
      ProductKeysListed(k);
    }
    errors := CollectErrors(ProductKeys, form, rule, map[]);
    if errors == map[] {
      forall k: ProductKey | k != Imagen ensures rule(k, form[k]) == "" {
        assert k in ProductKeys;
        var i :| 0 <= i < |ProductKeys| && ProductKeys[i] == k;
      }
    }
    if !hasImage {
      errors := errors[Imagen := ImageRequired];
    }
  }

  /** `Number(form[field]) || 0` as the stepper reads it: an integer, and 0
      for a missing field or text that does not read as an integer. */
  function StepperReading(form: ProductFields, field: ProductKey): (n: int)
    ensures field !in form ==> n == 0
    ensures n == 0 || (field in form && ParseInt(form[field]) == Some(n))
  {
    if field in form then
      match ParseInt(form[field])
      case Some(n) => n
      case None => 0
    else 0
  }

  /** A field holding `String(n)` reads as `n`: the stepper reads back what
      it writes. */
  lemma StepperReadsText(form: ProductFields, field: ProductKey, n: int)
    requires field in form && form[field] == IntToString(n)
    ensures StepperReading(form, field) == n
  {
    ParseIntToString(n);
  }

  /** The `-` button: `String(Math.max(0, reading - 1))` through `handleInputChange`. */
  function StepDown(st: FormState<ProductKey>, field: ProductKey): (r: FormState<ProductKey>)
    ensures StepperReading(r.values, field) == if StepperReading(st.values, field) > 0 then StepperReading(st.values, field) - 1 else 0
    ensures StepperReading(r.values, field) >= 0
    ensures r.values.Keys == st.values.Keys + {field}
    ensures forall k :: k in st.values && k != field ==> r.values[k] == st.values[k]
  {
    var n := StepperReading(st.values, field);
    var next := if n - 1 > 0 then n - 1 else 0;
    ParseIntToString(next);
    HandleInputChange(st, field, IntToString(next))
  }

  /** The `+` button: `String(reading + 1)` through `handleInputChange`. */
  function StepUp(st: FormState<ProductKey>, field: ProductKey): (r: FormState<ProductKey>)
    ensures StepperReading(r.values, field) == StepperReading(st.values, field) + 1
    ensures r.values.Keys == st.values.Keys + {field}
    ensures forall k :: k in st.values && k != field ==> r.values[k] == st.values[k]
  {
    var n := StepperReading(st.values, field);
    ParseIntToString(n + 1);
    HandleInputChange(st, field, IntToString(n + 1))
  }

  /** `+` then `-` returns a non-negative count to where it was, and the
      field now holds its canonical decimal text. */
  lemma StepUpThenDown(st: FormState<ProductKey>, field: ProductKey)
    requires StepperReading(st.values, field) >= 0
    ensures StepperReading(StepDown(StepUp(st, field), field).values, field) == StepperReading(st.values, field)
    ensures StepDown(StepUp(st, field), field).values[field] == IntToString(StepperReading(st.values, field))
  {
  }
}
