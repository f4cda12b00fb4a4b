/** The notifications page (`notifications.tsx`): a fixed list of
    notifications searched by message or category. */
module Notifications {
  import opened Ascii
  import opened Sequences

  /** A notification as the page lists it (its colour and icon left out). */
  datatype Notification = Notification(id: string, kind: string, category: string, message: string, date: string)

  /** The page's `NOTIFICATIONS`. */
  const Catalogue: seq<Notification> := [
    Notification("101", "alert", "Inventario",
      "Stock crítico: \"Cemento Portland\" tiene menos de 10 unidades.", "Hace 10 min"),
    Notification("102", "success", "Venta",
      "Meta diaria alcanzada: Se han superado las 50 ventas hoy.", "Hace 45 min"),
    Notification("103", "info", "Sistema",
      "Copia de seguridad automática completada exitosamente.", "Ayer, 02:00 AM"),
    Notification("104", "warning", "Precios",
      "Cambio de precio detectado en \"Lote B\" por usuario Admin.", "Ayer, 04:30 PM"),
    Notification("105", "alert", "Sistema",
      "Intento de acceso fallido detectado desde IP desconocida.", "Hace 2 días"),
    Notification("106", "info", "Inventario",
      "Nuevo producto \"Tubería PVC 2pulg\" añadido al catálogo.", "Hace 3 días")]

  /** The message or the category contains the term, ignoring case. */
  predicate Matches(term: string, n: Notification)
  {
    Contains(LowerCase(n.message), LowerCase(term)) || Contains(LowerCase(n.category), LowerCase(term))
  }

  /** `filteredNotifications`. */
  function Search(notes: seq<Notification>, term: string): (r: seq<Notification>)
    ensures forall n :: n in r <==> n in notes && Matches(term, n)
    ensures forall n :: multiset(r)[n] == if Matches(term, n) then multiset(notes)[n] else 0
    ensures IsSubsequence(r, notes)
  {
    FilterIsSubsequence(notes, n => Matches(term, n));
    Filter(notes, n => Matches(term, n))
  }

  /** An empty search shows every notification. */
  lemma EmptySearchShowsAll(notes: seq<Notification>)
    ensures Search(notes, "") == notes
  {
    forall i | 0 <= i < |notes| ensures Matches("", notes[i]) {
      ContainsEmpty(LowerCase(notes[i].message));
    }
    FilterKeepsAll(notes, n => Matches("", n));
  }

  /** Searching for a notification's category, in any case, finds it. */
  lemma CategorySearchFinds(notes: seq<Notification>, n: Notification, term: string)
    requires n in notes && LowerCase(term) == LowerCase(n.category)
    ensures n in Search(notes, term)
  {
    ContainsPrefix(LowerCase(n.category), "");
    assert LowerCase(n.category) + "" == LowerCase(n.category);
  }

  /** The table body and footer: the rows, or the "No se encontraron
      resultados" row when there are none, and the count in `Total`. */
  datatype View = View(rows: seq<Notification>, noResults: bool, total: nat)

  function Render(notes: seq<Notification>, term: string): (v: View)
    ensures v.rows == Search(notes, term) && v.total == |v.rows|
    ensures v.noResults <==> forall i :: 0 <= i < |notes| ==> !Matches(term, notes[i])
    ensures v.total <= |notes|
  {
    FilterEmpty(notes, n => Matches(term, n));
    var rows := Search(notes, term);
    View(rows, |rows| == 0, |rows|)
  }

  /** On opening, with the search box empty, the page lists all six
      notifications of its fixed list and a total of 6. */
  lemma OpeningShowsCatalogue()
    ensures Render(Catalogue, "").rows == Catalogue
    ensures Render(Catalogue, "").total == 6 && !Render(Catalogue, "").noResults
  {
    EmptySearchShowsAll(Catalogue);
  }
}
