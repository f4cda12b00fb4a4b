/** The `SearchableSelect` component (`searchableSelect.tsx`): a drop-down
    whose options are narrowed by a case-insensitive search term. */
module SearchSelect {
  import opened Wrappers
  import opened Ascii
  import opened Decimal
  import opened Sequences

  /** An option id is text or an (integer) number. */
  datatype OptionId = TextId(text: string) | NumId(n: int)

  /** `String(id)`. */
  function IdText(id: OptionId): string
  {
    match id
    case TextId(t) => t
    case NumId(n) => IntToString(n)
  }

  datatype SelectOption = SelectOption(id: OptionId, nombre: string)

  /** `String(o.id) === String(value)`. */
  predicate SameId(o: SelectOption, value: OptionId)
  {
    IdText(o.id) == IdText(value)
  }

  /** The option's name contains the search term, ignoring case. */
  predicate Matches(term: string, o: SelectOption)
  {
    Contains(LowerCase(o.nombre), LowerCase(term))
  }

  /** `filteredOptions`: the options matching the term, in their order. */
  function FilterOptions(options: seq<SelectOption>, term: string): (r: seq<SelectOption>)
    ensures forall o :: o in r <==> o in options && Matches(term, o)
    ensures forall o :: multiset(r)[o] == if Matches(term, o) then multiset(options)[o] else 0
    ensures IsSubsequence(r, options)
  {
    FilterIsSubsequence(options, o => Matches(term, o));
    Filter(options, o => Matches(term, o))
  }

  /** An empty search term lists every option. */
  lemma EmptyTermKeepsAll(options: seq<SelectOption>)
    ensures FilterOptions(options, "") == options
  {
    forall i | 0 <= i < |options| ensures Matches("", options[i]) {
      ContainsEmpty(LowerCase(options[i].nombre));
    }
    FilterKeepsAll(options, o => Matches("", o));
  }

  /** Typing more narrows the list: every option still shown for a longer
      term was already shown for its prefix. */
  lemma LongerTermNarrows(options: seq<SelectOption>, term: string, more: string)
    ensures forall o :: o in FilterOptions(options, term + more) ==> o in FilterOptions(options, term)
  {
    forall o | o in FilterOptions(options, term + more) ensures Matches(term, o) {
      LongerTermMatches(term, more, o);
    }
  }

  /** An option matching a longer term matches its prefix. */
  lemma LongerTermMatches(term: string, more: string, o: SelectOption)
    requires Matches(term + more, o)
    ensures Matches(term, o)
  {
    var name, longer, shorter := LowerCase(o.nombre), LowerCase(term + more), LowerCase(term);
    LowerCaseConcat(term, more);
    ContainsPrefix(shorter, LowerCase(more));
    ContainsTransitive(name, longer, shorter);
  }

  /** `options.find(o => String(o.id) === String(value))`: ids are compared
      as text, so the number 7 selects an option with id "7". */
  function SelectedOption(options: seq<SelectOption>, value: OptionId): (r: Option<SelectOption>)
    ensures r.None? <==> forall i :: 0 <= i < |options| ==> !SameId(options[i], value)
    ensures r.Some? ==> r.value in options && SameId(r.value, value)
    ensures r.Some? ==> exists i :: 0 <= i < |options| && options[i] == r.value
                          && forall j :: 0 <= j < i ==> !SameId(options[j], value)
  {
    match FindFirst(options, o => SameId(o, value), 0)
    case None => None
    case Some(i) => Some(options[i])
  }

  /** Whether the list is open and the current search term. */
  datatype SelectState = SelectState(isOpen: bool, searchTerm: string)

  /** `onClick={() => !disabled && setIsOpen(!isOpen)}` on the trigger. */
  function ClickTrigger(st: SelectState, disabled: bool): (r: SelectState)
    ensures disabled ==> r == st
    ensures !disabled ==> r.isOpen != st.isOpen && r.searchTerm == st.searchTerm
  {
    if disabled then st else st.(isOpen := !st.isOpen)
  }

  /** Clicking an option: the parent receives `String(option.id)`, the list
      closes and the search term is cleared. */
  datatype Picked = Picked(emitted: string, next: SelectState)

  function ClickOption(st: SelectState, o: SelectOption): (r: Picked)
    ensures r.emitted == IdText(o.id) && !r.next.isOpen && r.next.searchTerm == ""
  {
    Picked(IdText(o.id), SelectState(false, ""))
  }

  /** Once the parent stores the emitted value, the trigger shows an option
      with the clicked option's id, and the reopened list shows every option. */
  lemma ClickedOptionShown(options: seq<SelectOption>, st: SelectState, o: SelectOption)
    requires o in options
    ensures var r := ClickOption(st, o);
      var shown := SelectedOption(options, TextId(r.emitted));
      shown.Some? && SameId(shown.value, o.id)
      && FilterOptions(options, r.next.searchTerm) == options
  {
    var i :| 0 <= i < |options| && options[i] == o;
    assert SameId(options[i], TextId(IdText(o.id)));
    EmptyTermKeepsAll(options);
  }

  /** The list body: the matching rows, or the "No se encontraron
      resultados" line quoting the term when nothing matches. */
  datatype ListView = Rows(rows: seq<SelectOption>) | NoResults(message: string)

  function RenderList(options: seq<SelectOption>, term: string): (v: ListView)
    ensures v.NoResults? <==> forall i :: 0 <= i < |options| ==> !Matches(term, options[i])
    ensures v.NoResults? ==> v.message == "No se encontraron resultados para \"" + term + "\""
    ensures v.Rows? ==> v.rows == FilterOptions(options, term) && v.rows != []
  {
    FilterEmpty(options, o => Matches(term, o));
    var rows := FilterOptions(options, term);
    if rows == [] then NoResults("No se encontraron resultados para \"" + term + "\"") else Rows(rows)
  }
}
