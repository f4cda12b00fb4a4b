/** The edit-product screen (`editproducts.tsx`): filling the form from the
    product handed over by the inventory screen, the cleaned row it saves,
    the update-or-insert decision, the provider relation and the reaction to
    a unique-key violation. */
module ProductEdit {
  import opened Wrappers
  import opened Ascii
  import opened Decimal
  import opened Forms
  import opened ProductForm
  import opened ProductAdd
  import opened DbErrors

  /** A JavaScript value read from a stored row (numbers are integers here). */
  datatype Js = Undefined | Null | Bool(b: bool) | Int(n: int) | Text(s: string)
  {
    /** JavaScript truthiness. */
    predicate Truthy()
    {
      match this
      case Undefined => false
      case Null => false
      case Bool(b) => b
      case Int(n) => n != 0
      case Text(s) => s != ""
    }

    /** `v === null || v === undefined`, the test of `??`. */
    predicate Nullish()
    {
      Undefined? || Null?
    }

    /** `String(v)`. */
    function ToText(): string
    {
      match this
      case Undefined => "undefined"
      case Null => "null"
      case Bool(b) => if b then "true" else "false"
      case Int(n) => IntToString(n)
      case Text(s) => s
    }
  }

  /** The product passed in `location.state.product`: its id, its image and
      its columns; a column that is absent reads as `undefined`. */
  datatype StoredProduct = StoredProduct(id: int, imagen: Js, columns: map<ProductKey, Js>)

  function Column(p: StoredProduct, k: ProductKey): Js
  {
    if k in p.columns then p.columns[k] else Undefined
  }

  /** `String(v || fallback)`. */
  function OrText(v: Js, fallback: string): (r: string)
    ensures !v.Truthy() ==> r == fallback
    ensures v.Truthy() ==> r == v.ToText()
  {
    if v.Truthy() then v.ToText() else fallback
  }

  /** `String(v ?? fallback)`. */
  function NullishText(v: Js, fallback: string): (r: string)
    ensures v.Nullish() ==> r == fallback
    ensures !v.Nullish() ==> r == v.ToText()
  {
    if v.Nullish() then fallback else v.ToText()
  }

  /** `||` and `??` disagree exactly on the falsy values that are not
      nullish, `false`, `0` and `""`, and then only when the value's own text
      differs from the fallback. */
  lemma OrNullishDiffer(v: Js, fallback: string)
    ensures OrText(v, fallback) != NullishText(v, fallback) <==>
              (v == Bool(false) || v == Int(0) || v == Text("")) && v.ToText() != fallback
  {
  }

  /** The text one field receives when the form is filled. Stock counts
      fall back to "0" only when missing (`??`), so a stored 0 is kept, while
      every other column falls back on any falsy value (`||`): the currencies
      to "2", text and amounts to "". The provider is filled in later. */
  function PrefillField(p: StoredProduct, k: ProductKey): (text: string)
    ensures k == IdProveedor ==> text == ""
    ensures k == Stock || k == StockMinimo ==>
              text == if Column(p, k).Nullish() then "0" else Column(p, k).ToText()
    ensures k == IdCostoMoneda || k == IdPrecioMoneda ==>
              text == if Column(p, k).Truthy() then Column(p, k).ToText() else "2"
    ensures !(k in {IdProveedor, Stock, StockMinimo, IdCostoMoneda, IdPrecioMoneda}) ==>
              text == if Column(p, k).Truthy() then Column(p, k).ToText() else ""
  {
    match k
    case Stock => NullishText(Column(p, k), "0")
    case StockMinimo => NullishText(Column(p, k), "0")
    case IdCostoMoneda => OrText(Column(p, k), "2")
    case IdPrecioMoneda => OrText(Column(p, k), "2")
    case IdProveedor => ""
    case _ => OrText(Column(p, k), "")
  }

  /** The `setNewProduct` call of the pre-fill effect: every field of the
      product form, each filled as `PrefillField` says. */
  function Prefill(p: StoredProduct): (form: ProductFields)
    ensures Complete(form)
    ensures forall k :: k in form ==> form[k] == PrefillField(p, k)
  {
    forall k | true ensures k in ProductKeys <==> k != Imagen {
      ProductKeysListed(k);
    }
    map k | k in ProductKeys :: PrefillField(p, k)
  }

  /** A stored stock of 0 is shown as "0" and reads back as 0, whereas a
      stored cost of 0 is blanked (and then fails the required-cost rule). */
  lemma PrefillZeroes(p: StoredProduct)
    requires Column(p, Stock) == Int(0) && Column(p, CostoMonto) == Int(0)
    ensures Prefill(p)[Stock] == "0" && StepperReading(Prefill(p), Stock) == 0
    ensures Prefill(p)[CostoMonto] == ""
  {
    assert Prefill(p)[Stock] == IntToString(0);
    ParseIntToString(0);
  }

  /** A stored integer shown by the pre-fill reads back as that integer,
      except a 0 outside the stock counts, which falls back: to "2" for a
      currency and to "" for any other column. */
  lemma PrefillReadsBack(p: StoredProduct, k: ProductKey, n: int)
    requires k != IdProveedor && Column(p, k) == Int(n)
    ensures n != 0 || k == Stock || k == StockMinimo ==> ParseInt(PrefillField(p, k)) == Some(n)
    ensures n == 0 && (k == IdCostoMoneda || k == IdPrecioMoneda) ==> PrefillField(p, k) == "2"
    ensures n == 0 && !(k in {Stock, StockMinimo, IdCostoMoneda, IdPrecioMoneda}) ==> PrefillField(p, k) == ""
  {
    ParseIntToString(n);
  }

  /** A stored text is shown as it is, unless it is empty and the column is
      a currency, which then shows "2". */
  lemma PrefillKeepsText(p: StoredProduct, k: ProductKey, t: string)
    requires k != IdProveedor && Column(p, k) == Text(t)
    ensures t != "" || !(k == IdCostoMoneda || k == IdPrecioMoneda) ==> PrefillField(p, k) == t
    ensures t == "" && (k == IdCostoMoneda || k == IdPrecioMoneda) ==> PrefillField(p, k) == "2"
  {
  }

  /** The screen's state: `editingId`, `imagePreview` and the form. */
  datatype EditSession = EditSession(editingId: Option<int>, imagePreview: Js, state: FormState<ProductKey>)

  /** The pre-fill effect's synchronous part: the id, the preview and the
      form are replaced; the errors stay as they were. */
  function LoadProduct(p: StoredProduct, s: EditSession): (r: EditSession)
    ensures r.editingId == Some(p.id) && r.imagePreview == p.imagen
    ensures Complete(r.state.values) && r.state.errors == s.state.errors
    ensures r.state.values == Prefill(p)
  {
    EditSession(Some(p.id), p.imagen, FormState(Prefill(p), s.state.errors))
  }

  /** `if (data?.id_proveedor) setNewProduct(prev => ({ ...prev, id_proveedor: String(...) }))`:
      only a truthy stored provider fills the field, and nothing else changes. */
  function ApplyStoredProvider(s: EditSession, stored: Js): (r: EditSession)
    ensures !stored.Truthy() ==> r == s
    ensures stored.Truthy() ==> r.state.values == s.state.values[IdProveedor := stored.ToText()]
    ensures r.editingId == s.editingId && r.imagePreview == s.imagePreview && r.state.errors == s.state.errors
  {
    if stored.Truthy() then s.(state := s.state.(values := s.state.values[IdProveedor := stored.ToText()]))
    else s
  }

  /** The edit screen asks for an image only when there is neither a new
      file nor a truthy preview. */
  predicate EditHasImage(s: EditSession, hasFile: bool)
    ensures EditHasImage(s, hasFile) <==>
              hasFile || !(s.imagePreview in {Undefined, Null, Bool(false), Int(0), Text("")})
  {
    hasFile || s.imagePreview.Truthy()
  }

  /** `margen_ganancia` as saved: `null`, or `parseFloat` of the text. */
  datatype Margin = NullMargin | MarginValue(value: Option<real>)

  /** The `cleanData` object. Amounts are `Option<real>` and ids `Option<int>`,
      with `None` for NaN. */
  datatype CleanProduct = CleanProduct(
    codigoBarras: string, nombre: string, descripcion: string, tipoProducto: string,
    idCategoria: Option<int>, marca: string, ubicacion: string,
    costoMonto: Option<real>, precioMonto: Option<real>, margenGanancia: Margin,
    stock: Option<int>, stockMinimo: Option<int>,
    idCostoMoneda: Option<int>, idPrecioMoneda: Option<int>, imagen: Js)

  /** Text columns are trimmed (all but `tipo_producto`), numbers parsed, and
      the margin is `null` exactly when its field is empty. */
  function CleanData(p: Parsers, form: ProductFields, imageUrl: Js): (c: CleanProduct)
    requires Complete(form)
    ensures c.codigoBarras == Trim(form[CodigoBarras]) && c.nombre == Trim(form[Nombre])
    ensures c.descripcion == Trim(form[Descripcion]) && c.marca == Trim(form[Marca])
    ensures c.ubicacion == Trim(form[Ubicacion]) && c.tipoProducto == form[TipoProducto]
    ensures c.margenGanancia.NullMargin? <==> form[MargenGanancia] == ""
    ensures c.margenGanancia.MarginValue? ==> c.margenGanancia.value == p.parseFloat(form[MargenGanancia])
    ensures c.stock == p.parseInt(form[Stock]) && c.stockMinimo == p.parseInt(form[StockMinimo])
    ensures c.idCategoria == p.parseInt(form[IdCategoria])
    ensures c.costoMonto == p.parseFloat(form[CostoMonto]) && c.precioMonto == p.parseFloat(form[PrecioMonto])
    ensures c.idCostoMoneda == p.parseInt(form[IdCostoMoneda]) && c.idPrecioMoneda == p.parseInt(form[IdPrecioMoneda])
    ensures c.imagen == imageUrl
  {
    CleanProduct(
      Trim(form[CodigoBarras]), Trim(form[Nombre]), Trim(form[Descripcion]), form[TipoProducto],
      p.parseInt(form[IdCategoria]), Trim(form[Marca]), Trim(form[Ubicacion]),
      p.parseFloat(form[CostoMonto]), p.parseFloat(form[PrecioMonto]),
      if form[MargenGanancia] != "" then MarginValue(p.parseFloat(form[MargenGanancia])) else NullMargin,
      p.parseInt(form[Stock]), p.parseInt(form[StockMinimo]),
      p.parseInt(form[IdCostoMoneda]), p.parseInt(form[IdPrecioMoneda]), imageUrl)
  }

  /** A form that passes the edit screen's rules saves a non-empty name of
      at most 50 characters and a non-empty barcode of at most 20. */
  lemma ValidFormCleans(p: Parsers, form: ProductFields, imageUrl: Js)
    requires Complete(form)
    requires AllFieldsValid(Rules(p, EditScreen, form), form)
    ensures var c := CleanData(p, form, imageUrl);
      c.nombre != "" && |c.nombre| <= 50 && c.codigoBarras != "" && |c.codigoBarras| <= 20
  {
    var nombre, codigo := form[Nombre], form[CodigoBarras];
    assert NombreRule(EditScreen, nombre) == "" by {
      assert Rules(p, EditScreen, form)(Nombre, nombre) == "";
    }
    assert CodigoRule(codigo) == "" by {
      assert Rules(p, EditScreen, form)(CodigoBarras, codigo) == "";
    }
  }

  /** `selectedProviderId`: `null`, or `parseInt` of the field (`None` is NaN). */
  datatype ProviderRef = NoProvider | ProviderId(id: Option<int>)
  {
    predicate Truthy()
    {
      ProviderId? && id.Some? && id.value != 0
    }
  }

  function SelectedProvider(p: Parsers, form: ProductFields): (r: ProviderRef)
    ensures r.NoProvider? <==> IdProveedor !in form || form[IdProveedor] == ""
    ensures r.ProviderId? ==> r.id == p.parseInt(form[IdProveedor])
  {
    if IdProveedor in form && form[IdProveedor] != "" then ProviderId(p.parseInt(form[IdProveedor])) else NoProvider
  }

  /** The two screens read the provider field alike: the edit screen sends
      no provider exactly when the add screen's `id_proveedor || null` is
      null, and otherwise `parseInt` of the same text. */
  lemma ProviderChoicesAgree(p: Parsers, form: ProductFields)
    ensures SelectedProvider(p, form).NoProvider? <==> ProviderOrNull(form).None?
    ensures ProviderOrNull(form).Some? ==>
              SelectedProvider(p, form) == ProviderId(p.parseInt(ProviderOrNull(form).value))
  {
  }

  /** The write to `Productos`: an update of the edited row when `editingId`
      is truthy, otherwise the fallback insert with `estado: true`. */
  datatype ProductWrite = UpdateProduct(id: int, data: CleanProduct) | InsertProduct(data: CleanProduct, estado: bool)

  /** The write to `Detalle_Productos` after the product update. */
  datatype RelationWrite =
    | UpdateRelation(relationId: int, provider: ProviderRef)
    | InsertRelation(productId: int, providerId: int)
    | NoRelationWrite

  /** An existing relation is always updated, even to `null`; without one, a
      relation is inserted only for a truthy selected provider. */
  function RelationDecision(productId: int, existing: Option<int>, selected: ProviderRef): (w: RelationWrite)
    ensures w.UpdateRelation? <==> existing.Some?
    ensures w.UpdateRelation? ==> w.relationId == existing.value && w.provider == selected
    ensures w.InsertRelation? <==> existing.None? && selected.Truthy()
    ensures w.InsertRelation? ==> w.productId == productId && selected == ProviderId(Some(w.providerId))
  {
    match existing
    case Some(rel) => UpdateRelation(rel, selected)
    case None => if selected.Truthy() then InsertRelation(productId, selected.id.value) else NoRelationWrite
  }

  /** What submitting the edit form leads to: the error map and the
      "Algunos campos son incorrectos" toast; the storage error thrown when
      the new image fails to upload, which carries no PostgreSQL code and is
      handled by `ReactToSaveError`; or the
      writes to make. The image URL is the preview unless a new file was
      chosen, in which case it is the uploaded file's URL. */
  datatype EditPlan =
    | Invalid(errors: ProductFields, toast: string)
    | UploadFailed(error: DbError)
    | Save(product: ProductWrite, provider: ProviderRef)

  const InvalidToast: string := "Algunos campos son incorrectos"

  /** `handleSubmit` up to the writes. `upload` is the storage upload's
      public URL or its error, and matters only when `hasFile`. */
  method SubmitEdit(p: Parsers, s: EditSession, hasFile: bool, upload: Result<string>)
    returns (plan: EditPlan)
    requires Complete(s.state.values)
    ensures plan.Invalid? <==> !(EditHasImage(s, hasFile) && AllFieldsValid(Rules(p, EditScreen, s.state.values), s.state.values))
    ensures plan.Invalid? ==> plan.toast == InvalidToast
    ensures plan.Invalid? ==> forall k :: k in plan.errors <==>
              (k != Imagen && Rules(p, EditScreen, s.state.values)(k, s.state.values[k]) != "")
              || (k == Imagen && !EditHasImage(s, hasFile))
    ensures plan.Invalid? ==> forall k :: k in plan.errors && k != Imagen ==>
              plan.errors[k] == Rules(p, EditScreen, s.state.values)(k, s.state.values[k])
    ensures plan.Invalid? && Imagen in plan.errors ==> plan.errors[Imagen] == ImageRequired
    ensures plan.UploadFailed? <==> !plan.Invalid? && hasFile && upload.Err?
    ensures plan.UploadFailed? ==> plan.error.message == Some(upload.message) && plan.error.code != UniqueViolation
    ensures plan.Save? ==>
              plan.product.data == CleanData(p, s.state.values, if hasFile then Text(upload.value) else s.imagePreview)
    ensures plan.Save? ==> plan.provider == SelectedProvider(p, s.state.values)
    ensures plan.Save? ==> (plan.product.UpdateProduct? <==> s.editingId.Some? && s.editingId.value != 0)
    ensures plan.Save? && plan.product.UpdateProduct? ==> plan.product.id == s.editingId.value
    ensures plan.Save? && plan.product.InsertProduct? ==> plan.product.estado
    ensures plan.Save? ==> plan.provider.ProviderId?
  {
    var form := s.state.values;
    var rule := Rules(p, EditScreen, form);
    var errors := SubmitErrors(rule, form, EditHasImage(s, hasFile));
    if errors != map[] {
      return Invalid(errors, InvalidToast);
    }
    if hasFile && upload.Err? {
      return UploadFailed(DbError("", Some(upload.message), None, None));
    }
    ProviderChosen(p, EditScreen, form);
    var imageUrl := if hasFile then Text(upload.value) else s.imagePreview;
    var data := CleanData(p, form, imageUrl);
    var write := if s.editingId.Some? && s.editingId.value != 0 then UpdateProduct(s.editingId.value, data)
                 else InsertProduct(data, true);
    plan := Save(write, SelectedProvider(p, form));
  }

  const BarcodeTaken: string := "Este código de barras ya está registrado."
  const BarcodeToast: string := "El código de barras ya existe en el sistema."
  const DuplicateToast: string := "Ya existe un registro con estos datos."
  const FailureToast: string := "Hubo un error al procesar la solicitud."

  /** The `catch` block of `handleSubmit`. A unique violation naming
      `codigo_barras` marks that field and shows a toast; one naming only
      `detalle_productos` is silent; any other unique violation gets the
      duplicate toast; every other error gets the generic toast. Only the
      barcode entry of the error map can change. */
  function ReactToSaveError(e: DbError, errors: ProductFields): (r: Reaction<ProductKey>)
    ensures r.toast.None? <==> e.code == UniqueViolation && !Mentions(e, "codigo_barras") && Mentions(e, "detalle_productos")
    ensures e.code != UniqueViolation ==> r == Reaction(errors, Some(FailureToast))
    ensures e.code == UniqueViolation && Mentions(e, "codigo_barras") ==> r.toast == Some(BarcodeToast)
    ensures e.code == UniqueViolation && !Mentions(e, "codigo_barras") && !Mentions(e, "detalle_productos") ==>
              r.toast == Some(DuplicateToast)
    ensures errors.Keys <= r.errors.Keys <= errors.Keys + {CodigoBarras}
    ensures forall k :: k in errors && k != CodigoBarras ==> r.errors[k] == errors[k]
    ensures r.errors != errors <==>
              (e.code == UniqueViolation && Mentions(e, "codigo_barras")
               && (CodigoBarras !in errors || errors[CodigoBarras] != BarcodeTaken))
  {
    if e.code == UniqueViolation then
      if Mentions(e, "codigo_barras") then Reaction(errors[CodigoBarras := BarcodeTaken], Some(BarcodeToast))
      else if !Mentions(e, "detalle_productos") then Reaction(errors, Some(DuplicateToast))
      else Reaction(errors, None)
    else Reaction(errors, Some(FailureToast))
  }

  /** The message of a unique violation reported by PostgreSQL on the barcode
      constraint mentions `codigo_barras` whatever the case it is written in,
      so it is always attributed to the barcode field. */
  lemma BarcodeViolationAttributed(e: DbError, errors: ProductFields, before: string, after: string)
    requires e.code == UniqueViolation
    requires e.message == Some(before + "codigo_barras" + after)
    ensures CodigoBarras in ReactToSaveError(e, errors).errors
    ensures ReactToSaveError(e, errors).errors[CodigoBarras] == BarcodeTaken
    ensures ReactToSaveError(e, errors).toast == Some(BarcodeToast)
  {
    MessageMentions(e, before, "codigo_barras", after);
  }
}
