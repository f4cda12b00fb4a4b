/** The edit-provider screen (`editproviders.tsx`): splitting the stored RIF
    and phone into their inputs, the update written on submit and the
    reaction to a unique-key violation. */
module ProviderEdit {
  import opened Wrappers
  import opened Ascii
  import opened Forms
  import opened Segments
  import opened DbErrors
  import opened ProviderForm

  /** The provider passed in `location.state.provider`; `None` is a missing
      or `null` column. */
  datatype StoredProvider = StoredProvider(
    id: int, rif: Option<string>, telefono: Option<string>,
    nombre: Option<string>, ubicacion: Option<string>, correo: Option<string>, nombreContacto: Option<string>)

  /** The screen's state: `editingId`, the two split inputs and the form. */
  datatype EditProviderSession = EditProviderSession(
    editingId: Option<int>, rifLetter: string, rifNumber: string,
    areaCode: string, phoneNum: string, state: FormState<ProviderKey>)

  /** The state on opening the screen. */
  function InitialSession(): (s: EditProviderSession)
    ensures s.editingId.None? && s.rifLetter == "J" && s.areaCode == "0414"
    ensures s.rifNumber == "" && s.phoneNum == "" && s.state.errors == map[]
    ensures Complete(EditProvider, s.state.values)
    ensures forall k :: k in s.state.values ==> s.state.values[k] == ""
  {
    EditProviderSession(None, "J", "", "0414", "",
      FormState(map[Nombre := "", Ubicacion := "", Correo := "", NombreContacto := ""], map[]))
  }

  /** The two inputs a stored `X-Y` column is shown in. */
  datatype Halves = Halves(head: string, tail: string)

  /** `if (v && v.includes('-')) { [h, t] = v.split('-') } else { t = v || "" }`:
      a column with a dash is cut at its first two pieces, replacing both
      inputs; otherwise the whole text goes to the second input and the first
      keeps `head`. The halves rejoined are the column up to its second dash,
      so only a column with exactly one dash is shown without loss. */
  function SplitStored(stored: Option<string>, head: string): (r: Halves)
    ensures !(stored.Some? && '-' in stored.value) ==> r == Halves(head, OrEmpty(stored))
    ensures stored.Some? && '-' in stored.value ==> '-' !in r.head && '-' !in r.tail
    ensures stored.Some? && '-' in stored.value ==>
              var c := Compose(r.head, '-', r.tail);
              c <= stored.value && (|c| < |stored.value| ==> stored.value[|c|] == '-')
    ensures stored.Some? && '-' in stored.value ==>
              (Compose(r.head, '-', r.tail) == stored.value <==> Count(stored.value, '-') == 1)
  {
    match stored
    case Some(v) =>
      if '-' in v then
        ComposeFirstTwo(v, '-');
        FirstTwoPrefix(v, '-');
        var parts := Split(v, '-');
        Halves(parts[0], parts[1])
      else Halves(head, v)
    case None => Halves(head, "")
  }

  /** The pre-fill effect: the id, both split inputs and the form are set
      from the stored provider; the errors are left alone. */
  function LoadProvider(p: StoredProvider, s: EditProviderSession): (r: EditProviderSession)
    ensures r.editingId == Some(p.id) && r.state.errors == s.state.errors
    ensures Halves(r.rifLetter, r.rifNumber) == SplitStored(p.rif, s.rifLetter)
    ensures Halves(r.areaCode, r.phoneNum) == SplitStored(p.telefono, s.areaCode)
    ensures Complete(EditProvider, r.state.values)
    ensures r.state.values[Nombre] == OrEmpty(p.nombre) && r.state.values[Ubicacion] == OrEmpty(p.ubicacion)
    ensures r.state.values[Correo] == OrEmpty(p.correo) && r.state.values[NombreContacto] == OrEmpty(p.nombreContacto)
  {
    var rif := SplitStored(p.rif, s.rifLetter);
    var phone := SplitStored(p.telefono, s.areaCode);
    EditProviderSession(Some(p.id), rif.head, rif.tail, phone.head, phone.tail,
      FormState(map[Nombre := OrEmpty(p.nombre), Ubicacion := OrEmpty(p.ubicacion),
                    Correo := OrEmpty(p.correo), NombreContacto := OrEmpty(p.nombreContacto)],
                s.state.errors))
  }

  /** Typing in the RIF number input clears a shown `rif` error. */
  function RifInputChange(s: EditProviderSession, value: string): (r: EditProviderSession)
    ensures r == s.(rifNumber := value, state := r.state)
    ensures r.state.values == s.state.values
    ensures r.state.errors.Keys == s.state.errors.Keys
    ensures Rif in r.state.errors ==> r.state.errors[Rif] == ""
    ensures forall k :: k in s.state.errors && k != Rif ==> r.state.errors[k] == s.state.errors[k]
  {
    s.(rifNumber := value, state := s.state.(errors := ClearError(s.state.errors, Rif)))
  }

  /** Typing in the phone number input clears a shown `telefono` error. */
  function PhoneInputChange(s: EditProviderSession, value: string): (r: EditProviderSession)
    ensures r == s.(phoneNum := value, state := r.state)
    ensures r.state.values == s.state.values
    ensures r.state.errors.Keys == s.state.errors.Keys
    ensures Telefono in r.state.errors ==> r.state.errors[Telefono] == ""
    ensures forall k :: k in s.state.errors && k != Telefono ==> r.state.errors[k] == s.state.errors[k]
  {
    s.(phoneNum := value, state := s.state.(errors := ClearError(s.state.errors, Telefono)))
  }

  /** `{ ...newProvider, rif: fullRif, telefono: fullPhone }` */
  function UpdatedColumns(s: EditProviderSession): (columns: ProviderFields)
    ensures columns.Keys == s.state.values.Keys + {Rif, Telefono}
    ensures columns[Rif] == Compose(s.rifLetter, '-', s.rifNumber)
    ensures columns[Telefono] == Compose(s.areaCode, '-', s.phoneNum)
    ensures forall k :: k in s.state.values && k != Rif && k != Telefono ==> columns[k] == s.state.values[k]
  {
    s.state.values[Rif := Compose(s.rifLetter, '-', s.rifNumber)][Telefono := Compose(s.areaCode, '-', s.phoneNum)]
  }

  /** What submitting leads to: the error map and the "Algunos campos son
      incorrectos" toast; the update of row `id`; or, when `editingId` is
      not truthy, nothing at all. */
  datatype ProviderEditPlan =
    | Invalid(errors: ProviderFields, toast: string)
    | Update(id: int, columns: ProviderFields)
    | NoWrite

  const InvalidToast: string := "Algunos campos son incorrectos"

  /** Every check of the edit screen's submit passes. */
  predicate EditValid(s: EditProviderSession)
    requires Complete(EditProvider, s.state.values)
  {
    Valid(EditProvider, Rules(EditProvider), s.state.values, RifNumberRule(EditProvider, s.rifNumber), PhoneNumberRule(s.phoneNum))
  }

  method SubmitEdit(s: EditProviderSession) returns (plan: ProviderEditPlan)
    requires Complete(EditProvider, s.state.values)
    ensures plan.Invalid? <==> !EditValid(s)
    ensures plan.Invalid? ==> plan.toast == InvalidToast
    ensures plan.Invalid? ==> (Rif in plan.errors <==> RifNumberRule(EditProvider, s.rifNumber) != "")
    ensures plan.Invalid? ==> (Telefono in plan.errors <==> PhoneNumberRule(s.phoneNum) != "")
    ensures plan.Invalid? ==> forall k :: IsField(EditProvider, k) ==>
              (k in plan.errors <==> Rules(EditProvider)(k, s.state.values[k]) != "")
    ensures plan.Invalid? && Rif in plan.errors ==> plan.errors[Rif] == RifNumberRule(EditProvider, s.rifNumber)
    ensures plan.Invalid? && Telefono in plan.errors ==> plan.errors[Telefono] == PhoneNumberRule(s.phoneNum)
    ensures plan.Invalid? ==> forall k :: IsField(EditProvider, k) && k in plan.errors ==>
              plan.errors[k] == Rules(EditProvider)(k, s.state.values[k])
    ensures plan.Invalid? ==> forall k :: k in plan.errors ==> k == Rif || k == Telefono || IsField(EditProvider, k)
    ensures plan.Update? <==> EditValid(s) && s.editingId.Some? && s.editingId.value != 0
    ensures plan.Update? ==> plan.id == s.editingId.value && plan.columns == UpdatedColumns(s)
  {
    var rifError, phoneError := RifNumberRule(EditProvider, s.rifNumber), PhoneNumberRule(s.phoneNum);
    assert !IsField(EditProvider, Telefono);
    var errors := SubmitErrors(EditProvider, Rules(EditProvider), s.state.values, rifError, phoneError);
    if errors != map[] {
      return Invalid(errors, InvalidToast);
    }
    if s.editingId.Some? && s.editingId.value != 0 {
      plan := Update(s.editingId.value, UpdatedColumns(s));
    } else {
      plan := NoWrite;
    }
  }

  /** The field a unique violation is attributed to, first match wins:
      `rif`, then `telefono`, then `correo` or `email`. */
  function DuplicateField(e: DbError): (f: Option<ProviderKey>)
    ensures f == Some(Rif) <==> Mentions(e, "rif")
    ensures f == Some(Telefono) <==> !Mentions(e, "rif") && Mentions(e, "telefono")
    ensures f == Some(Correo) <==> !Mentions(e, "rif") && !Mentions(e, "telefono")
                                   && (Mentions(e, "correo") || Mentions(e, "email"))
    ensures f.None? || f.value == Rif || f.value == Telefono || f.value == Correo
  {
    if Mentions(e, "rif") then Some(Rif)
    else if Mentions(e, "telefono") then Some(Telefono)
    else if Mentions(e, "correo") || Mentions(e, "email") then Some(Correo)
    else None
  }

  /** The field message and toast for a duplicate of each field. */
  function TakenMessage(k: ProviderKey): string
  {
    match k
    case Rif => "Este RIF ya está registrado por otro proveedor."
    case Telefono => "Este teléfono ya está registrado por otro proveedor."
    case _ => "Este correo ya está registrado por otro proveedor."
  }

  function TakenToast(k: ProviderKey): string
  {
    match k
    case Rif => "El RIF ya existe en el sistema."
    case Telefono => "El número de teléfono ya existe."
    case _ => "El correo electrónico ya existe."
  }

  const DuplicateToast: string := "Ya existe un registro con estos datos."
  const UpdateFailedToast: string := "Hubo un error al intentar actualizar el proveedor."

  /** The `catch` block of `handleSubmit`: a unique violation marks at most
      the one field it is attributed to, keeping every other error shown,
      and always shows a toast; any other error only shows the generic one. */
  function ReactToUpdateError(e: DbError, errors: ProviderFields): (r: Reaction<ProviderKey>)
    ensures r.toast.Some?
    ensures e.code != UniqueViolation ==> r == Reaction(errors, Some(UpdateFailedToast))
    ensures e.code == UniqueViolation && DuplicateField(e).None? ==> r == Reaction(errors, Some(DuplicateToast))
    ensures e.code == UniqueViolation && DuplicateField(e).Some? ==>
              var f := DuplicateField(e).value;
              r.errors.Keys == errors.Keys + {f} && r.errors[f] == TakenMessage(f) && r.toast == Some(TakenToast(f))
    ensures forall k :: k in errors && !(e.code == UniqueViolation && DuplicateField(e) == Some(k)) ==>
              k in r.errors && r.errors[k] == errors[k]
  {
    if e.code == UniqueViolation then
      match DuplicateField(e)
      case Some(f) => Reaction(errors[f := TakenMessage(f)], Some(TakenToast(f)))
      case None => Reaction(errors, Some(DuplicateToast))
    else Reaction(errors, Some(UpdateFailedToast))
  }

  /** A RIF stored as letter, dash, digits (as both provider screens store
      it) is shown again as exactly that letter and those digits. */
  lemma StoredRifReloads(p: StoredProvider, s: EditProviderSession, letter: string, digits: string)
    requires p.rif == Some(Compose(letter, '-', digits))
    requires '-' !in letter && AllDigits(digits)
    ensures LoadProvider(p, s).rifLetter == letter && LoadProvider(p, s).rifNumber == digits
  {
    SplitCompose(letter, '-', digits);
  }

  /** Saving a form whose RIF and phone numbers are digits (as a valid
      form's are) and loading the stored row again shows the same inputs:
      the split RIF and phone survive the round trip. */
  lemma UpdateThenReload(s: EditProviderSession, p: StoredProvider, t: EditProviderSession)
    requires AllDigits(s.rifNumber) && AllDigits(s.phoneNum)
    requires '-' !in s.rifLetter && '-' !in s.areaCode
    requires p.rif == Some(Compose(s.rifLetter, '-', s.rifNumber))
    requires p.telefono == Some(Compose(s.areaCode, '-', s.phoneNum))
    ensures LoadProvider(p, t).rifLetter == s.rifLetter && LoadProvider(p, t).rifNumber == s.rifNumber
    ensures LoadProvider(p, t).areaCode == s.areaCode && LoadProvider(p, t).phoneNum == s.phoneNum
  {
    SplitCompose(s.rifLetter, '-', s.rifNumber);
    SplitCompose(s.areaCode, '-', s.phoneNum);
  }

  /** A phone stored without a dash keeps the screen's area code, so saving
      it unchanged writes that area code in front of the stored digits. */
  lemma UndashedPhoneGainsAreaCode(p: StoredProvider, phone: string)
    requires p.telefono == Some(phone) && '-' !in phone
    ensures var s := LoadProvider(p, InitialSession());
      s.areaCode == "0414" && UpdatedColumns(s)[Telefono] == "0414-" + phone
  {
  }
}
