/** The add-product screen (`products.tsx`): what `handleSubmit` writes once
    the form passes validation. */
module ProductAdd {
  import opened Wrappers
  import opened Forms
  import opened ProductForm

  /** The row inserted into `Productos`. */
  datatype ProductRow = ProductRow(fields: ProductFields, imagen: Option<string>, estado: bool)

  /** What submitting the add form leads to. `Rejected` shows the error map
      and the "Por favor corrige los errores" alert; `SaveFailed` is the
      "Error al guardar en la base de datos" alert; `Insert` carries the
      `Productos` row and the provider id of the `Detalle_Productos` row
      (`None` is `null`). */
  datatype AddOutcome =
    | Rejected(errors: ProductFields)
    | SaveFailed
    | Insert(product: ProductRow, provider: Option<string>)

  /** `const { id_proveedor, ...pData } = newProduct;
      { ...pData, imagen: imageUrl, estado: true }` */
  function InsertedRow(form: ProductFields, imageUrl: Option<string>): (row: ProductRow)
    ensures row.fields.Keys == form.Keys - {IdProveedor}
    ensures forall k :: k in row.fields ==> row.fields[k] == form[k]
    ensures row.imagen == imageUrl && row.estado
  {
    ProductRow(map k | k in form && k != IdProveedor :: form[k], imageUrl, true)
  }

  /** `newProduct.id_proveedor || null` */
  function ProviderOrNull(form: ProductFields): (provider: Option<string>)
    ensures provider.None? <==> IdProveedor !in form || form[IdProveedor] == ""
    ensures provider.Some? ==> provider.value == form[IdProveedor]
  {
    if IdProveedor in form && form[IdProveedor] != "" then Some(form[IdProveedor]) else None
  }

  /** `handleSubmit` of the add screen. `hasFile` says whether an image file
      was chosen; `upload` is the storage upload's public URL or its error. */
  method SubmitAdd(p: Parsers, form: ProductFields, hasFile: bool, upload: Result<string>)
    returns (outcome: AddOutcome)
    requires Complete(form)
    ensures outcome.Rejected? <==> !(hasFile && AllFieldsValid(Rules(p, AddScreen, form), form))
    ensures outcome.Rejected? ==> forall k :: k in outcome.errors <==>
              (k != Imagen && Rules(p, AddScreen, form)(k, form[k]) != "") || (k == Imagen && !hasFile)
    ensures outcome.Rejected? ==> forall k :: k in outcome.errors && k != Imagen ==>
              outcome.errors[k] == Rules(p, AddScreen, form)(k, form[k])
    ensures outcome.Rejected? && Imagen in outcome.errors ==> outcome.errors[Imagen] == ImageRequired
    ensures outcome.SaveFailed? <==> !outcome.Rejected? && upload.Err?
    ensures outcome.Insert? ==> outcome.product == InsertedRow(form, Some(upload.value))
    ensures outcome.Insert? ==> outcome.provider == Some(form[IdProveedor])
  {
    var rule := Rules(p, AddScreen, form);
    var errors := SubmitErrors(rule, form, hasFile);
    if errors != map[] {
      return Rejected(errors);
    }
    ProviderChosen(p, AddScreen, form);
    match upload
    case Err(_) =>
      outcome := SaveFailed;
    case Ok(url) =>
      outcome := Insert(InsertedRow(form, Some(url)), ProviderOrNull(form));
  }
}
