/** The provider form of the add screen (`addproviders.tsx`) and the edit
    screen (`editproviders.tsx`): their rule tables and the error map built
    on submit. */
module ProviderForm {
  import opened Ascii
  import opened Forms

  datatype ProviderScreen = AddProvider | EditProvider

  /** Field names: the keys of `newProvider`, the `rif_number` and
      `phone_number` rules for the split inputs, and the `rif` / `telefono`
      error keys those inputs report under. */
  datatype ProviderKey =
    | Nombre | Rif | RifNumber | Telefono | PhoneNumber | Ubicacion | Correo | NombreContacto

  type ProviderFields = map<ProviderKey, string>

  /** The keys of `newProvider` on each screen, in declaration order. The add
      screen keeps the whole phone in `telefono`; the edit screen splits it
      into its own inputs. */
  function FieldKeys(screen: ProviderScreen): seq<ProviderKey>
  {
    match screen
    case AddProvider => [Nombre, Telefono, Ubicacion, Correo, NombreContacto]
    case EditProvider => [Nombre, Ubicacion, Correo, NombreContacto]
  }

  /** `k` is a key of `newProvider` on that screen. */
  predicate IsField(screen: ProviderScreen, k: ProviderKey)
  {
    k == Nombre || k == Ubicacion || k == Correo || k == NombreContacto || (screen.AddProvider? && k == Telefono)
  }

  lemma FieldKeysListed(screen: ProviderScreen, k: ProviderKey)
    ensures k in FieldKeys(screen) <==> IsField(screen, k)
  {
    if !IsField(screen, k) {
      forall i | 0 <= i < |FieldKeys(screen)| ensures FieldKeys(screen)[i] != k {}
    }
  }

  /** A form holds exactly the screen's fields. */
  predicate Complete(screen: ProviderScreen, form: ProviderFields)
  {
    forall k: ProviderKey :: k in form <==> IsField(screen, k)
  }

  /** A field that must not be blank. */
  function RequiredRule(s: string, missing: string): (msg: string)
    requires missing != ""
    ensures msg == "" <==> !IsBlank(s)
  {
    if Trim(s) == "" then missing else ""
  }

  /** `rif_number`: required and digits only; the edit screen also wants
      7 to 10 digits. */
  function RifNumberRule(screen: ProviderScreen, s: string): (msg: string)
    ensures msg == "" <==> AllDigits(s) && (screen.AddProvider? || 7 <= |s| <= 10)
    ensures IsBlank(s) ==> msg == "El RIF es obligatorio"
  {
    if Trim(s) == "" then "El RIF es obligatorio"
    else if !AllDigits(s) then "Solo números"
    else if screen.EditProvider? && (|s| < 7 || |s| > 10) then "El RIF debe tener entre 7 y 10 dígitos"
    else ""
  }

  /** `phone_number` (edit screen): required, digits only, at least 7. */
  function PhoneNumberRule(s: string): (msg: string)
    ensures msg == "" <==> AllDigits(s) && |s| >= 7
    ensures IsBlank(s) ==> msg == "El teléfono es obligatorio"
  {
    if Trim(s) == "" then "El teléfono es obligatorio"
    else if !AllDigits(s) then "Solo números"
    else if |s| < 7 then "Mínimo 7 dígitos"
    else ""
  }

  /** `correo`: required and shaped like `x@y.z`. */
  function CorreoRule(s: string): (msg: string)
    ensures msg == "" <==> !IsBlank(s) && LooksLikeEmail(s)
  {
    if Trim(s) == "" then "El correo es obligatorio"
    else if !LooksLikeEmail(s) then "Email inválido"
    else ""
  }

  /** `nombre_contacto`: required; the edit screen allows only ASCII letters
      and spaces. */
  function ContactoRule(screen: ProviderScreen, s: string): (msg: string)
    ensures msg == "" <==> !IsBlank(s) && (screen.AddProvider? || LettersAndSpaces(s))
  {
    if Trim(s) == "" then "El contacto es obligatorio"
    else if screen.EditProvider? && !LettersAndSpaces(s) then "Solo letras"
    else ""
  }

  /** `validateField(field, value)` of the screen: a name without a rule
      always passes. */
  function ValidateField(screen: ProviderScreen, field: ProviderKey, value: string): (msg: string)
    ensures field == Rif ==> msg == ""
    ensures screen.AddProvider? && field == PhoneNumber ==> msg == ""
    ensures screen.EditProvider? && field == Telefono ==> msg == ""
  {
    match field
    case Nombre => RequiredRule(value, "El nombre es obligatorio")
    case RifNumber => RifNumberRule(screen, value)
    case Telefono => if screen.AddProvider? then RequiredRule(value, "El teléfono es obligatorio") else ""
    case PhoneNumber => if screen.EditProvider? then PhoneNumberRule(value) else ""
    case Correo => CorreoRule(value)
    case Ubicacion => RequiredRule(value, "La ubicación es obligatoria")
    case NombreContacto => ContactoRule(screen, value)
    case Rif => ""
  }

  function Rules(screen: ProviderScreen): (ProviderKey, string) -> string
  {
    (k, v) => ValidateField(screen, k, v)
  }

  /** The errors of the split inputs, keyed `rif` and `telefono`. */
  function SplitErrors(rifError: string, phoneError: string): (start: ProviderFields)
    ensures Rif in start <==> rifError != ""
    ensures Rif in start ==> start[Rif] == rifError
    ensures Telefono in start <==> phoneError != ""
    ensures Telefono in start ==> start[Telefono] == phoneError
    ensures forall k :: k in start ==> k == Rif || k == Telefono
  {
    var withRif: ProviderFields := if rifError != "" then map[Rif := rifError] else map[];
    if phoneError != "" then withRif[Telefono := phoneError] else withRif
  }

  /** Everything the screen checks on submit passes: the split inputs'
      rules and the screen's `rule` for every field of the form. */
  predicate Valid(screen: ProviderScreen, rule: (ProviderKey, string) -> string, form: ProviderFields,
                  rifError: string, phoneError: string)
    requires Complete(screen, form)
  {
    && rifError == "" && phoneError == ""
    && forall k: ProviderKey :: IsField(screen, k) ==> rule(k, form[k]) == ""
  }

  /** The validation pass of `handleSubmit`: the split inputs' errors
      (`rifError`, and `phoneError` on the edit screen, "" for none) are
      reported under `rif` and `telefono`, every failing field of the form
      under its own name; the map is empty exactly when the form is valid. */
  method SubmitErrors(screen: ProviderScreen, rule: (ProviderKey, string) -> string, form: ProviderFields,
                      rifError: string, phoneError: string)
    returns (errors: ProviderFields)
    requires Complete(screen, form)
    requires IsField(screen, Telefono) ==> phoneError == ""
    ensures Rif in errors <==> rifError != ""
    ensures Rif in errors ==> errors[Rif] == rifError
    ensures !IsField(screen, Telefono) ==> (Telefono in errors <==> phoneError != "")
    ensures !IsField(screen, Telefono) && Telefono in errors ==> errors[Telefono] == phoneError
    ensures forall k :: IsField(screen, k) ==> (k in errors <==> rule(k, form[k]) != "")
    ensures forall k :: IsField(screen, k) && k in errors ==> errors[k] == rule(k, form[k])
    ensures forall k :: k in errors ==> k == Rif || k == Telefono || IsField(screen, k)
    ensures errors == map[] <==> Valid(screen, rule, form, rifError, phoneError)
  {
    var keys := FieldKeys(screen);
    forall k | true ensures k in keys <==> IsField(screen, k) {
      FieldKeysListed(screen, k);
    }
    var start := SplitErrors(rifError, phoneError);
    errors := CollectErrors(keys, form, rule, start);
    if errors == map[] {
      forall k: ProviderKey | IsField(screen, k) ensures rule(k, form[k]) == "" {
        assert k !in errors;
      }
    } else if Valid(screen, rule, form, rifError, phoneError) {
      forall i | 0 <= i < |keys| ensures rule(keys[i], form[keys[i]]) == "" {
        assert IsField(screen, keys[i]);
      }
    }
  }
}
