/** The `getBcv` view of the Django back end (`services/views.py`): the
    response it builds from the page of the Banco Central de Venezuela, and
    the normalisation of the rate text. */
module BcvDjango {
  import opened Wrappers
  import opened Ascii
  import opened Decimal
  import opened Rewrite

  /** What the page fetch produced. `Raised` is an exception from
      `requests.get` (its `str(e)`); `Answered` carries the status code and
      the `div#dolar` lookup: `None` when the div is missing, `Some(None)`
      when it has no `<strong>`, and otherwise the `<strong>`'s text. */
  datatype Upstream =
    | Raised(error: string)
    | Answered(status: int, dolarDiv: Option<Option<string>>)

  /** The JSON body: `{"process": True, "value", "name"}` or
      `{"process": False, "error"}`. */
  datatype Body = Rate(value: real, name: string) | Failure(error: string)

  datatype Response = Response(status: int, body: Body)
  {
    /** The `process` flag of the body. */
    predicate Process()
    {
      body.Rate?
    }
  }

  const NotFound: string := "No se encontró el elemento"

  /** `str(e)` of the `AttributeError` raised by `None.text`. */
  const NoStrongError: string := "'NoneType' object has no attribute 'text'"

  /** The message for a status other than 200. */
  function HttpError(status: int): (msg: string)
    ensures Contains(msg, IntToString(status))
    ensures |msg| > 46 && ParseInt(msg[46..]) == Some(status)
  {
    ContainsSuffix("Error HTTP: La página respondió con el código ", IntToString(status));
    ParseIntToString(status);
    "Error HTTP: La página respondió con el código " + IntToString(status)
  }

  /** `text.strip().replace(',', '.')`. */
  function Normalise(text: string): (r: string)
    ensures ',' !in r
    ensures |r| == |Trim(text)|
    ensures forall i :: 0 <= i < |r| ==> r[i] == if Trim(text)[i] == ',' then '.' else Trim(text)[i]
    ensures |r| > 0 ==> !IsSpace(r[0]) && !IsSpace(r[|r| - 1])
  {
    ReplaceAllRemoves(Trim(text), ',', '.');
    ReplaceAll(Trim(text), ',', '.')
  }

  /** Normalising normalised text changes nothing. */
  lemma NormaliseIdempotent(text: string)
    ensures Normalise(Normalise(text)) == Normalise(text)
  {
    var t := Trim(text);
    var r := Normalise(text);
    assert Trim(r) == r by {
      TrimOfUntrimmed(r);
    }
    ReplaceAllIdempotent(t, ',', '.');
  }

  /** `getBcv(request)`, with `float` given as `parseFloat`: `Ok` with the
      value, or `Err` with `str(ValueError)`. */
  function GetBcv(upstream: Upstream, parseFloat: string -> Result<real>): (r: Response)
    ensures r.Process() ==> r.status == 200 && r.body.name == "BCV"
    ensures r.Process() <==> upstream.Answered? && upstream.status == 200
                             && upstream.dolarDiv.Some? && upstream.dolarDiv.value.Some?
                             && parseFloat(Normalise(upstream.dolarDiv.value.value)).Ok?
    ensures r.Process() ==> r.body.value == parseFloat(Normalise(upstream.dolarDiv.value.value)).value
    ensures upstream.Raised? ==> r == Response(500, Failure(upstream.error))
    ensures upstream.Answered? && upstream.status != 200 ==>
              r.status == upstream.status && r.body.Failure? && Contains(r.body.error, IntToString(upstream.status))
    ensures upstream.Answered? && upstream.status == 200 && upstream.dolarDiv.None? ==>
              r == Response(500, Failure(NotFound))
    ensures upstream.Answered? && upstream.status == 200 && upstream.dolarDiv == Some(None) ==>
              r == Response(500, Failure(NoStrongError))
    ensures upstream.Answered? && upstream.status == 200 && upstream.dolarDiv.Some? && upstream.dolarDiv.value.Some?
            && parseFloat(Normalise(upstream.dolarDiv.value.value)).Err? ==>
              r == Response(500, Failure(parseFloat(Normalise(upstream.dolarDiv.value.value)).message))
    ensures !r.Process() && r.status != 500 ==>
              upstream.Answered? && upstream.status != 200 && r.status == upstream.status
  {
    match upstream
    case Raised(e) => Response(500, Failure(e))
    case Answered(status, div) =>
      if status != 200 then Response(status, Failure(HttpError(status)))
      else
        match div
        case None => Response(500, Failure(NotFound))
        case Some(None) => Response(500, Failure(NoStrongError))
        case Some(Some(text)) =>
          match parseFloat(Normalise(text))
          case Ok(v) => Response(200, Rate(v, "BCV"))
          case Err(e) => Response(500, Failure(e))
  }
}
