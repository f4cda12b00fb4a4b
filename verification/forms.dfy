/** Form state shared by the product and provider screens: a map of field
    texts, a map of error texts (`""` means no error shown), the input-change
    handler and the error collection done on submit. Field names are a closed
    enumeration `K` per screen. */
module Forms {

  /** The `newProduct` / `newProvider` object together with `errors`. */
  datatype FormState<K> = FormState(values: map<K, string>, errors: map<K, string>)

  /** Every name listed in `keys` is a field of `values`. */
  predicate HasKeys<K>(values: map<K, string>, keys: seq<K>)
  {
    forall i :: 0 <= i < |keys| ==> keys[i] in values
  }

  /** `if (errors[field]) setErrors({ ...errors, [field]: "" })`: a shown
      error of that one field is blanked; the key set never changes. */
  function ClearError<K>(errors: map<K, string>, field: K): (r: map<K, string>)
    ensures r.Keys == errors.Keys
    ensures field in r ==> r[field] == ""
    ensures forall k :: k in errors && k != field ==> r[k] == errors[k]
  {
    if field in errors && errors[field] != "" then errors[field := ""] else errors
  }

  /** `handleInputChange(field, value)`: the field takes the new text, its
      error is cleared, and nothing else in the form or the errors changes. */
  function HandleInputChange<K>(st: FormState<K>, field: K, value: string): (r: FormState<K>)
    ensures r.values.Keys == st.values.Keys + {field}
    ensures r.values[field] == value
    ensures forall k :: k in st.values && k != field ==> r.values[k] == st.values[k]
    ensures r.errors.Keys == st.errors.Keys
    ensures field in r.errors ==> r.errors[field] == ""
    ensures forall k :: k in st.errors && k != field ==> r.errors[k] == st.errors[k]
  {
    FormState(st.values[field := value], ClearError(st.errors, field))
  }

  /** The `Object.keys(form).forEach` pass of a submit handler, starting from
      the error map `start`: a field whose rule reports a message gets that
      message, every other entry of `start` is kept. The map ends up empty
      exactly when `start` was and every listed field passes. */
  method CollectErrors<K>(keys: seq<K>, values: map<K, string>, rule: (K, string) -> string, start: map<K, string>)
    returns (errors: map<K, string>)
    requires HasKeys(values, keys)
    ensures forall k :: k in errors <==> k in start || (k in keys && rule(k, values[k]) != "")
    ensures forall k :: k in keys && rule(k, values[k]) != "" ==> errors[k] == rule(k, values[k])
    ensures forall k :: k in start && !(k in keys && rule(k, values[k]) != "") ==> errors[k] == start[k]
    ensures errors == map[] <==> start == map[] && forall i :: 0 <= i < |keys| ==> rule(keys[i], values[keys[i]]) == ""
  {
    errors := start;
    var i := 0;
    while i < |keys|
      invariant 0 <= i <= |keys|
      invariant forall k :: k in errors <==> k in start || (k in keys[..i] && rule(k, values[k]) != "")
      invariant forall k :: k in keys[..i] && rule(k, values[k]) != "" ==> errors[k] == rule(k, values[k])
      invariant forall k :: k in start && !(k in keys[..i] && rule(k, values[k]) != "") ==> errors[k] == start[k]
    {
      var k := keys[i];
      var e := rule(k, values[k]);
      if e != "" {
        errors := errors[k := e];
      }
      assert keys[..i + 1] == keys[..i] + [k];
      i := i + 1;
    }
    assert keys[..i] == keys;
    if errors == map[] {
      forall j | 0 <= j < |keys| ensures rule(keys[j], values[keys[j]]) == "" {
        assert keys[j] !in errors;
      }
      assert start.Keys <= errors.Keys;
    } else {
      var k :| k in errors;
    }
  }
}
