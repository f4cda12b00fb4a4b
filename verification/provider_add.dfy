/** The add-provider screen (`addproviders.tsx`): the RIF entered as a
    letter and a number, and the row inserted into `Proveedores`. */
module ProviderAdd {
  import opened Wrappers
  import opened Ascii
  import opened Forms
  import opened Segments
  import opened ProviderForm

  /** The screen's state: the RIF letter and number inputs and the form. */
  datatype AddProviderSession = AddProviderSession(rifLetter: string, rifNumber: string, state: FormState<ProviderKey>)

  /** The state on opening the screen: letter "J", everything else empty. */
  function InitialSession(): (s: AddProviderSession)
    ensures s.rifLetter == "J" && s.rifNumber == "" && s.state.errors == map[]
    ensures Complete(AddProvider, s.state.values)
    ensures forall k :: k in s.state.values ==> s.state.values[k] == ""
  {
    AddProviderSession("J", "", FormState(map[Nombre := "", Telefono := "", Ubicacion := "", Correo := "", NombreContacto := ""], map[]))
  }

  /** Typing in the RIF number input: the number changes and a shown `rif`
      error is cleared; the form itself is untouched. */
  function RifInputChange(s: AddProviderSession, value: string): (r: AddProviderSession)
    ensures r.rifNumber == value && r.rifLetter == s.rifLetter && r.state.values == s.state.values
    ensures r.state.errors.Keys == s.state.errors.Keys
    ensures Rif in r.state.errors ==> r.state.errors[Rif] == ""
    ensures forall k :: k in s.state.errors && k != Rif ==> r.state.errors[k] == s.state.errors[k]
  {
    s.(rifNumber := value, state := s.state.(errors := ClearError(s.state.errors, Rif)))
  }

  /** The `Proveedores` row: the form's columns plus `rif`, and `estado`. */
  datatype ProviderRow = ProviderRow(columns: ProviderFields, estado: bool)

  /** What submitting leads to: the error map, or the row sent to
      `Proveedores` together with the alert shown when that insert fails
      (`None` when it succeeds). */
  datatype AddOutcome = Rejected(errors: ProviderFields) | Insert(row: ProviderRow, alert: Option<string>)

  const SaveFailedAlert: string := "Error al guardar el proveedor"

  /** `{ ...newProvider, rif: fullRif, estado: true }` */
  function InsertedRow(form: ProviderFields, rifLetter: string, rifNumber: string): (row: ProviderRow)
    ensures row.estado
    ensures row.columns.Keys == form.Keys + {Rif}
    ensures row.columns[Rif] == Compose(rifLetter, '-', rifNumber)
    ensures forall k :: k in form && k != Rif ==> row.columns[k] == form[k]
  {
    ProviderRow(form[Rif := Compose(rifLetter, '-', rifNumber)], true)
  }

  /** `handleSubmit`; `insertFailed` is whether the insert returned an error. */
  method SubmitAdd(s: AddProviderSession, insertFailed: bool) returns (outcome: AddOutcome)
    requires Complete(AddProvider, s.state.values)
    ensures outcome.Rejected? <==>
              !Valid(AddProvider, Rules(AddProvider), s.state.values, RifNumberRule(AddProvider, s.rifNumber), "")
    ensures outcome.Rejected? ==> (Rif in outcome.errors <==> RifNumberRule(AddProvider, s.rifNumber) != "")
    ensures outcome.Rejected? ==> forall k :: IsField(AddProvider, k) ==>
              (k in outcome.errors <==> Rules(AddProvider)(k, s.state.values[k]) != "")
    ensures outcome.Rejected? && Rif in outcome.errors ==> outcome.errors[Rif] == RifNumberRule(AddProvider, s.rifNumber)
    ensures outcome.Rejected? ==> forall k :: IsField(AddProvider, k) && k in outcome.errors ==>
              outcome.errors[k] == Rules(AddProvider)(k, s.state.values[k])
    ensures outcome.Rejected? ==> forall k :: k in outcome.errors ==> k == Rif || IsField(AddProvider, k)
    ensures outcome.Insert? ==> outcome.row == InsertedRow(s.state.values, s.rifLetter, s.rifNumber)
    ensures outcome.Insert? ==> (outcome.alert.Some? <==> insertFailed)
    ensures outcome.Insert? && outcome.alert.Some? ==> outcome.alert.value == SaveFailedAlert
  {
    var errors := SubmitErrors(AddProvider, Rules(AddProvider), s.state.values, RifNumberRule(AddProvider, s.rifNumber), "");
    if errors != map[] {
      return Rejected(errors);
    }
    outcome := Insert(InsertedRow(s.state.values, s.rifLetter, s.rifNumber),
                      if insertFailed then Some(SaveFailedAlert) else None);
  }

  /** A RIF accepted by this screen is stored as letter, dash, digits, and
      splits back into exactly the letter and the digits entered. */
  lemma StoredRifSplits(s: AddProviderSession)
    requires RifNumberRule(AddProvider, s.rifNumber) == ""
    requires '-' !in s.rifLetter
    ensures Split(Compose(s.rifLetter, '-', s.rifNumber), '-') == [s.rifLetter, s.rifNumber]
  {
    SplitCompose(s.rifLetter, '-', s.rifNumber);
  }
}
