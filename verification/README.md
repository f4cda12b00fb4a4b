# StockManager — a Dafny model of its validation, search and exchange-rate logic

StockManager is an inventory application. It has a React front end on Supabase and two small back ends that scrape the dollar rate published by the Banco Central de Venezuela (BCV). This project models the parts of it that are pure, sequential logic and proves properties of them:

- **Exchange rate.** The Django view `getBcv` and the Express route `/api/bcv`. Both decide between a success and a failure response from what the page fetch produced. They normalise the rate text differently: Python's `replace` rewrites every comma, JavaScript's rewrites only the first. The Express CORS middleware is modelled too.
- **Product forms.** The add screen (`products.tsx`) and the edit screen (`editproducts.tsx`) share:
  - a per-field rule table;
  - the submit-time error map that gates saving;
  - the stock stepper.
  The edit screen also has:
  - pre-fill from the stored row;
  - the cleaned payload;
  - the update-or-insert choice for the product and its provider relation;
  - the classification of PostgreSQL unique violations (`23505`).
- **Provider forms.** The add screen (`addproviders.tsx`) and the edit screen (`editproviders.tsx`) have:
  - their rule tables;
  - the RIF (tax id) split into letter and number and the phone split into area code and number, both re-joined with `-` on save;
  - the duplicate-key classification.
- **Search.** The `SearchableSelect` component (case-insensitive filter, selection by stringified id, reset on click) and the notifications page filter.

Layout: one module per concept, all files flat.

- `wrappers.dfy`: `Option`, `Result`.
- `ascii.dfy`: whitespace, trim, lower case, substring search.
- `decimal.dfy`: `String(n)` and its inverse reader.
- `rewrite.dfy`: replace-all and replace-first.
- `segments.dfy`: split and compose on a separator.
- `sequences.dfy`: `filter` and `find`.
- `forms.dfy`: form state, input change, error collection.
- `db_errors.dfy`: the database error object.
- One module per screen or back end for the rest.

JavaScript and Python semantics are modelled explicitly where they matter:

- truthiness, and `||` versus `??`;
- NaN as `None`, with every comparison against it false;
- axios rejecting statuses outside 2xx;
- cheerio yielding `""` for a missing element;
- bs4's `None.text` raising `AttributeError`.

Three facts about the exchange-rate back ends shape their models:

- The Django view's messages are in Spanish, for example "No se encontró el elemento" and "Error HTTP: La página respondió con el código N".
- In the Django view, `float` runs inside `try`, so a rate that does not parse is a 500 failure carrying `str(e)`.
- The Express back end sets no timeout on its fetch.

## Model

| member | source | states |
|---|---|---|
| Ascii.Trim | backEnd/bcvApi/server.js:87 | `.trim()` leaves no whitespace at either end, never lengthens the text, and gives "" exactly for blank text |
| Ascii.TrimBlank | frontReact/src/pages/products.tsx:47 | `!value.trim()` holds exactly when every character of `value` is whitespace |
| Ascii.TrimIsInfix | backDjango/services/views.py:53 | `.strip()` removes only whitespace: the result is the infix of the input between a blank prefix and a blank suffix |
| Ascii.TrimOfUntrimmed | backDjango/services/views.py:53 | text with no whitespace at either end is its own strip |
| Ascii.TrimIdempotent | frontReact/src/pages/editproducts.tsx:304-310 | trimming an already trimmed column changes nothing |
| Ascii.LowerCase | frontReact/src/components/searchableSelect.tsx:35 | `toLowerCase()` keeps the length and lowers each character on its own |
| Ascii.LowerCaseConcat | frontReact/src/components/searchableSelect.tsx:35 | lower-casing a concatenation lower-cases each part |
| Ascii.LowerCaseIdempotent | frontReact/src/components/searchableSelect.tsx:35 | lower-casing twice is lower-casing once |
| Ascii.ContainsEmpty | frontReact/src/pages/notifications.tsx:90 | `includes("")` is true of every text |
| Ascii.ContainsTransitive | frontReact/src/components/searchableSelect.tsx:35 | a substring of a substring is a substring |
| Decimal.IntToString | frontReact/src/pages/products.tsx:518 | `String(n)` is a non-empty run of digits, with a leading `-` for a negative |
| Decimal.ParseInt | frontReact/src/pages/products.tsx:504 | the integer reader accepts exactly an optional `-` followed by digits; digits alone read as non-negative |
| Decimal.DigitsOfNat | frontReact/src/pages/products.tsx:518 | the digits of a natural number read back as that number |
| Decimal.ParseIntToString | frontReact/src/pages/products.tsx:504-518 | reading `String(n)` back gives `n` for every integer |
| Decimal.IntToStringInjective | frontReact/src/components/searchableSelect.tsx:38 | distinct numeric ids have distinct texts |
| Rewrite.ReplaceAll | backDjango/services/views.py:57 | Python `replace(',', '.')` keeps the length and turns every comma, and only commas, into a point |
| Rewrite.ReplaceAllRemoves | backDjango/services/views.py:57 | no comma survives |
| Rewrite.ReplaceAllIdempotent | backDjango/services/views.py:57 | replacing a second time changes nothing |
| Rewrite.ReplaceFirst | backEnd/bcvApi/server.js:96 | JS `replace(',', '.')` keeps the length, rewrites the first comma only, and leaves text without a comma unchanged |
| Rewrite.ReplaceFirstCount | backEnd/bcvApi/server.js:96 | exactly one comma disappears when there is one |
| Rewrite.ReplaceFirstEnds | backEnd/bcvApi/server.js:96 | the first and last characters are kept or are the new point |
| Segments.Split | frontReact/src/pages/editproviders.tsx:45 | `split('-')` gives one more piece than there are dashes, none holding a dash |
| Segments.JoinSplit | frontReact/src/pages/editproviders.tsx:45 | joining the pieces with `-` restores the text |
| Segments.Compose | frontReact/src/pages/addproviders.tsx:91 | `` `${letter}-${number}` `` is the letter, one dash, then the number |
| Segments.ComposeFirstTwo | frontReact/src/pages/editproviders.tsx:44-47 | a text with a dash splits in at least two pieces, and composing the first two restores it exactly when it has one dash (later pieces are dropped) |
| Segments.FirstTwoPrefix | frontReact/src/pages/editproviders.tsx:44-45 | the first two pieces rejoined are a prefix of the text followed by a dash when shorter, so only what follows the second dash is dropped |
| Segments.SplitCompose | frontReact/src/pages/editproviders.tsx:155-156 | a composed value whose halves hold no dash splits back into exactly those halves |
| Sequences.Filter | frontReact/src/components/searchableSelect.tsx:34-36 | `filter` keeps every passing element, as often as it occurs, and nothing else |
| Sequences.FilterIsSubsequence | frontReact/src/components/searchableSelect.tsx:34-36 | the kept elements stay in their original order |
| Sequences.FilterKeepsAll | frontReact/src/pages/notifications.tsx:89-92 | the filter returns the whole list exactly when every element passes |
| Sequences.FilterEmpty | frontReact/src/components/searchableSelect.tsx:106 | the filter returns nothing exactly when no element passes |
| Sequences.FindFirst | frontReact/src/components/searchableSelect.tsx:38 | `find` returns the first passing position, or none exactly when nothing passes |
| Forms.ClearError | frontReact/src/pages/products.tsx:141 | a shown error of the changed field is blanked; every other error and the key set are kept |
| Forms.HandleInputChange | frontReact/src/pages/products.tsx:139-142 | only the named field changes (also addproviders.tsx:63-66 and editproducts.tsx:223-226) and only its error is cleared |
| Forms.CollectErrors | frontReact/src/pages/products.tsx:166-171 | the error map holds exactly the failing fields with their messages plus the initial entries, and is empty exactly when all pass |
| DbErrors.CombinedInfo | frontReact/src/pages/editproducts.tsx:387 | the combined text is the lowered `message`, `details` and `detail`, missing parts read as "", joined by single spaces, with no upper-case letter left |
| DbErrors.MessageMentions | frontReact/src/pages/editproducts.tsx:387-390 | a lower-case word anywhere in the message is found, whatever the case of the rest |
| ProductForm.ProductKeysListed | frontReact/src/pages/products.tsx:26-42 | `Object.keys(newProduct)` lists every key except `imagen` |
| ProductForm.NombreRule | frontReact/src/pages/products.tsx:46-51 | valid iff non-blank, no digit on the add screen, at most 50; the blank and digit messages come first |
| ProductForm.CodigoRule | frontReact/src/pages/products.tsx:52-57 | valid iff non-blank with 8 to 20 characters |
| ProductForm.MarcaRule | frontReact/src/pages/products.tsx:58-62 | valid iff no digit and at most 30; empty is valid |
| ProductForm.MaxLengthRule | frontReact/src/pages/products.tsx:63-66 | `ubicacion` and `descripcion` are valid iff within their bound |
| ProductForm.AmountRule | frontReact/src/pages/products.tsx:67-76 | an amount is valid iff non-blank and `parseFloat` is not at or below 0 (NaN passes) |
| ProductForm.StockRule | frontReact/src/pages/products.tsx:77-82 | stock is valid iff non-blank, not negative and not below `Number(stock_minimo)` |
| ProductForm.StockMinimoRule | frontReact/src/pages/products.tsx:83-87 | the minimum is valid iff non-blank and not negative |
| ProductForm.SelectedRule | frontReact/src/pages/products.tsx:92-103 | a select is valid iff not left empty |
| ProductForm.MargenRule | frontReact/src/pages/products.tsx:104-107 | the margin is valid iff empty or not outside 0 < m <= 100 (NaN passes) |
| ProductForm.UnruledFieldsPass | frontReact/src/pages/products.tsx:134-137 | a field without a rule (the currencies, the image) always passes |
| ProductForm.ValidateField | frontReact/src/pages/products.tsx:92-137 | `validateField` dispatches each field to its rule; each of the three selects fails exactly when left empty |
| ProductForm.ProviderChosen | frontReact/src/pages/products.tsx:100-103 | a form passing the provider rule has a provider selected |
| ProductForm.SubmitErrors | frontReact/src/pages/products.tsx:166-175 | an entry exactly for each failing field and for `imagen` without an image; empty exactly when the form may be saved |
| ProductForm.StepperReading | frontReact/src/pages/products.tsx:504-518 | `Number(x) \|\| 0` reads 0 for a missing field, otherwise 0 or the integer the field's text spells |
| ProductForm.StepperReadsText | frontReact/src/pages/products.tsx:504-518 | a field holding `String(n)` reads as `n`, so the stepper reads back what it writes |
| ProductForm.StepDown | frontReact/src/pages/products.tsx:504 | `-` sets the reading to max(0, n - 1) and changes no other field |
| ProductForm.StepUp | frontReact/src/pages/products.tsx:518 | `+` sets the reading to n + 1 and changes no other field |
| ProductForm.StepUpThenDown | frontReact/src/pages/products.tsx:504-518 | `+` then `-` restores a non-negative count and leaves its canonical text |
| ProductAdd.InsertedRow | frontReact/src/pages/products.tsx:192-193 | the `Productos` row is the form without `id_proveedor`, with the image URL and `estado: true` |
| ProductAdd.SubmitAdd | frontReact/src/pages/products.tsx:162-208 | rejected exactly when there is no file or a field fails, with an entry exactly for each failing field carrying its rule's message and `imagen` carrying the image message; an upload error gives the save alert; otherwise the row and its provider are inserted |
| ProductEdit.OrNullishDiffer | frontReact/src/pages/editproducts.tsx:171-182 | `String(v \|\| d)` and `String(v ?? d)` disagree exactly for `false`, `0` and `""` whose own text is not `d`; on every other value they agree |
| ProductEdit.PrefillReadsBack | frontReact/src/pages/editproducts.tsx:170-184 | a stored integer is shown as text that reads back as that integer, except a 0 outside the stock counts, which is lost: shown as "2" for a currency and "" for any other column |
| ProductEdit.PrefillKeepsText | frontReact/src/pages/editproducts.tsx:170-184 | a stored text is shown unchanged, except an empty currency id, which shows "2" |
| ProductEdit.Prefill | frontReact/src/pages/editproducts.tsx:170-186 | the filled form has every product field, each as its column says |
| ProductEdit.PrefillZeroes | frontReact/src/pages/editproducts.tsx:178-182 | a stored stock of 0 shows as "0" while a stored cost of 0 is blanked |
| ProductEdit.LoadProduct | frontReact/src/pages/editproducts.tsx:164-186 | the id and the preview come from the stored product, the form is exactly its pre-fill (so the pre-fill lemmas describe the screen), and the errors are kept |
| ProductEdit.ApplyStoredProvider | frontReact/src/pages/editproducts.tsx:197-199 | only a truthy stored provider fills `id_proveedor`; nothing else changes |
| ProductEdit.EditHasImage | frontReact/src/pages/editproducts.tsx:277 | the image counts as present exactly when a new file is chosen or the preview is not `undefined`, `null`, `false`, `0` or `""` |
| ProductEdit.CleanData | frontReact/src/pages/editproducts.tsx:303-319 | text columns are trimmed except `tipo_producto`; ids, counts and amounts are `parseInt` or `parseFloat` of their own field; the margin is null exactly when its field is empty; the image is the given URL |
| ProductEdit.ValidFormCleans | frontReact/src/pages/editproducts.tsx:63-73 | a valid form saves a non-empty name of at most 50 and a non-empty barcode of at most 20 |
| ProductEdit.ProviderChoicesAgree | frontReact/src/pages/editproducts.tsx:321 | the edit screen sends no provider exactly when the add screen's `id_proveedor \|\| null` (products.tsx:198) is null, and otherwise `parseInt` of that same text |
| ProductEdit.RelationDecision | frontReact/src/pages/editproducts.tsx:343-361 | an existing relation is always updated, even to null; without one a relation is inserted only for a truthy provider |
| ProductEdit.SubmitEdit | frontReact/src/pages/editproducts.tsx:264-323 | aborts with the toast exactly when the image is missing or a field fails, with an entry exactly for each of those carrying its message; a failed upload of a new file throws its storage error; else saves `CleanData` of the form with the new or kept image, and the selected provider, as an update of the edited row or an insert with `estado: true` |
| ProductEdit.ReactToSaveError | frontReact/src/pages/editproducts.tsx:383-403 | a unique violation naming `codigo_barras` gives the barcode toast; another gives the duplicate toast unless it names `detalle_productos`, which is silent; any other error gives the generic toast. Only the barcode error can change, and only for a barcode violation |
| ProductEdit.BarcodeViolationAttributed | frontReact/src/pages/editproducts.tsx:386-392 | a violation whose message names `codigo_barras` marks the barcode field and shows the barcode toast |
| ProviderForm.FieldKeysListed | frontReact/src/pages/addproviders.tsx:19-25 | the listed keys are exactly each screen's form fields |
| ProviderForm.RequiredRule | frontReact/src/pages/addproviders.tsx:29-32 | valid iff non-blank |
| ProviderForm.RifNumberRule | frontReact/src/pages/editproviders.tsx:78-83 | valid iff all digits, and on the edit screen 7 to 10 of them |
| ProviderForm.PhoneNumberRule | frontReact/src/pages/editproviders.tsx:84-89 | valid iff all digits and at least 7 |
| ProviderForm.CorreoRule | frontReact/src/pages/addproviders.tsx:42-46 | valid iff non-blank and containing non-space, `@`, non-space, `.`, non-space |
| ProviderForm.ContactoRule | frontReact/src/pages/editproviders.tsx:99-103 | valid iff non-blank, and on the edit screen only ASCII letters and spaces |
| ProviderForm.ValidateField | frontReact/src/pages/addproviders.tsx:58-61 | a name without a rule on that screen always passes |
| ProviderForm.SplitErrors | frontReact/src/pages/editproviders.tsx:128-134 | the split inputs report under `rif` and `telefono`, exactly when they fail |
| ProviderForm.SubmitErrors | frontReact/src/pages/editproviders.tsx:126-142 | errors exactly for the failing split inputs and fields, with their messages; empty exactly when the form is valid |
| ProviderAdd.InitialSession | frontReact/src/pages/addproviders.tsx:16-25 | the screen opens on letter "J" with every field empty and no errors |
| ProviderAdd.RifInputChange | frontReact/src/pages/addproviders.tsx:146-149 | typing the RIF number clears only the `rif` error and leaves the form alone |
| ProviderAdd.InsertedRow | frontReact/src/pages/addproviders.tsx:91-96 | the row is the form plus `rif` as letter-dash-number, with `estado: true` |
| ProviderAdd.SubmitAdd | frontReact/src/pages/addproviders.tsx:68-104 | rejected exactly when the RIF or a field fails, with an entry only for each of those, carrying its rule's message; otherwise that row is inserted, and the "Error al guardar el proveedor" alert appears exactly when the insert fails |
| ProviderAdd.StoredRifSplits | frontReact/src/pages/addproviders.tsx:91 | a stored RIF splits back into the letter and digits entered |
| ProviderEdit.InitialSession | frontReact/src/pages/editproviders.tsx:23-33 | the screen opens on "J" and "0414" with empty inputs |
| ProviderEdit.SplitStored | frontReact/src/pages/editproviders.tsx:44-59 | without a dash the text goes to the second input and the first keeps its default; with one, the halves are dash-free and, rejoined, are the text up to its second dash, so they restore it iff it has exactly one dash |
| ProviderEdit.LoadProvider | frontReact/src/pages/editproviders.tsx:38-68 | the id, the split RIF and phone and a complete form are set from the stored row |
| ProviderEdit.RifInputChange | frontReact/src/pages/editproviders.tsx:241-244 | typing the RIF number clears only the `rif` error |
| ProviderEdit.PhoneInputChange | frontReact/src/pages/editproviders.tsx:336-339 | typing the phone number clears only the `telefono` error |
| ProviderEdit.UpdatedColumns | frontReact/src/pages/editproviders.tsx:155-165 | the update is the form plus `rif` and `telefono` composed with `-` |
| ProviderEdit.SubmitEdit | frontReact/src/pages/editproviders.tsx:122-171 | invalid with the toast exactly when a check fails, with an entry only for each failing RIF, phone or field, carrying its rule's message; the update is issued exactly when valid and `editingId` is truthy |
| ProviderEdit.DuplicateField | frontReact/src/pages/editproviders.tsx:180-189 | attribution order: `rif`, then `telefono`, then `correo` or `email` |
| ProviderEdit.ReactToUpdateError | frontReact/src/pages/editproviders.tsx:172-199 | a toast is always shown; only the attributed field's error changes, others are kept |
| ProviderEdit.StoredRifReloads | frontReact/src/pages/editproviders.tsx:44-47 | a RIF stored as letter-dash-digits loads as that letter and those digits |
| ProviderEdit.UpdateThenReload | frontReact/src/pages/editproviders.tsx:155-166 | saving a form whose RIF and phone numbers are digits, as a valid form's are, and loading the row again gives back the same four split inputs |
| ProviderEdit.UndashedPhoneGainsAreaCode | frontReact/src/pages/editproviders.tsx:52-59 | a phone stored without a dash keeps the default "0414", which the next save writes in front of it |
| SearchSelect.FilterOptions | frontReact/src/components/searchableSelect.tsx:34-36 | the options matching the term ignoring case, each as often as in the list, in their order |
| SearchSelect.EmptyTermKeepsAll | frontReact/src/components/searchableSelect.tsx:34-36 | an empty term lists every option |
| SearchSelect.LongerTermMatches | frontReact/src/components/searchableSelect.tsx:35 | an option matching a longer term matches its prefix |
| SearchSelect.LongerTermNarrows | frontReact/src/components/searchableSelect.tsx:34-36 | typing more never brings back an option |
| SearchSelect.SelectedOption | frontReact/src/components/searchableSelect.tsx:38 | the shown option is the first whose id, as text, equals the value's, and none exists exactly when no id matches |
| SearchSelect.ClickTrigger | frontReact/src/components/searchableSelect.tsx:62 | a disabled trigger changes nothing; otherwise it toggles the list |
| SearchSelect.ClickOption | frontReact/src/components/searchableSelect.tsx:119-123 | a click emits `String(id)`, closes the list and clears the term |
| SearchSelect.ClickedOptionShown | frontReact/src/components/searchableSelect.tsx:119-123 | after the click the trigger shows an option with that id and the list shows every option |
| SearchSelect.RenderList | frontReact/src/components/searchableSelect.tsx:106-111 | the "No se encontraron resultados" line quoting the term appears exactly when nothing matches |
| Notifications.Search | frontReact/src/pages/notifications.tsx:89-92 | a notification is kept iff its message or category contains the term ignoring case, as often as listed, in the original order |
| Notifications.EmptySearchShowsAll | frontReact/src/pages/notifications.tsx:89-92 | an empty search shows every notification |
| Notifications.CategorySearchFinds | frontReact/src/pages/notifications.tsx:91 | searching a category's name, in any case, finds its notifications |
| Notifications.Render | frontReact/src/pages/notifications.tsx:144-185 | the total is the number of shown rows, and the empty-state row appears exactly when no notification matches |
| Notifications.OpeningShowsCatalogue | frontReact/src/pages/notifications.tsx:5-92 | with the initial empty search the page lists its six fixed notifications, and the total is 6 |
| BcvDjango.HttpError | backDjango/services/views.py:80-83 | the non-200 message contains the status code, and the code reads back from the text after the fixed prefix |
| BcvDjango.Normalise | backDjango/services/views.py:53-57 | no comma left, the stripped text's length, commas become points and nothing else changes, no whitespace at either end |
| BcvDjango.NormaliseIdempotent | backDjango/services/views.py:53-57 | normalising twice is normalising once |
| BcvDjango.GetBcv | backDjango/services/views.py:26-95 | success exactly for status 200, a `strong` in `div#dolar` and a parsing rate, then with status 200 and name "BCV"; a raised request, a missing div or `strong`, and a rate `float` rejects each give 500 with their message; any other status is echoed with a message naming it, and only that case fails with a status other than 500 |
| BcvExpress.Cors | backEnd/bcvApi/server.js:48-52 | any origin and the four headers are allowed, other headers kept, `next` always called |
| BcvExpress.CorsIdempotent | backEnd/bcvApi/server.js:48-52 | running the middleware twice equals running it once |
| BcvExpress.AxiosRejection | backEnd/bcvApi/server.js:67 | axios rejects only a status outside 2xx, and its message contains the status, which reads back from the text after the fixed prefix |
| BcvExpress.Normalise | backEnd/bcvApi/server.js:87-96 | the trimmed text with only its first comma made a point, same length, no whitespace at either end |
| BcvExpress.LaterCommasSurvive | backEnd/bcvApi/server.js:96 | every comma after the first is still there |
| BcvExpress.AsWrittenNeverAnswers | backEnd/bcvApi/server.js:59-129 | with `async (res)`, every request ends in a thrown `TypeError` ("res.status is not a function") and, under Express 4, gets no response |
| BcvExpress.HandleIntended | backEnd/bcvApi/server.js:59-129 | every request is answered: a 2xx page gives 200 with `exito`, the fixed source and currencies and the parsed rate; any failure gives 500 with the failure's message |
| BcvExpress.MissingRateStillSucceeds | backEnd/bcvApi/server.js:87-113 | a page without `#dolar strong` still gives the success body, with a NaN rate |

## Left out

- Network and HTML parsing: `requests.get`, `axios.get`, TLS settings and BeautifulSoup/cheerio are not run. The model takes their outcome as an input (`Upstream`, `Fetch`): an exception, a status, the element found or not, its text.
- Supabase and storage: queries, inserts, updates, uploads and the timestamped file names are left out. The model computes the rows and decisions handed to them; a failed write is an input (`DbError`, the upload `Result`).
- Number parsing: `float`, `parseFloat`, `Number` and `parseInt` are parameters returning `Option` values, where `None` is NaN and every comparison with NaN is false.
- Clock: `new Date().toISOString()` is the `now` parameter.
- React and DOM plumbing is left out: effects, the click-outside listener, focus, scrolling, toast timers, navigation and loading flags. So are the image input handlers and the dashboard and menu components.
- Unicode: whitespace, case and `\S` use an ASCII model; `.length` is the sequence length rather than UTF-16 code units.
- BcvDjango.Normalise: uses the same whitespace set as JavaScript's `trim`. Python's `str.strip()` also removes the ASCII separators `\x1c`–`\x1f`, which `trim` keeps. A rate text that starts or ends with one of them is not modelled faithfully.
- ProductForm.StepDown: the reading it decrements is `ProductForm.StepperReading`, which reads integer text only (next line).
- ProductForm.StepUp: the reading it increments is `ProductForm.StepperReading`, which reads integer text only (next line).
- ProductForm.StepperReading: `Number(x) || 0` reads only canonical integer text (an optional `-` and digits). Text such as "1.5", " 3 " or "1e2", which JavaScript reads as a number, reads as 0 here, so StepDown and StepUp are stated for integer readings only.
- ProductEdit.Js: stored numbers are integers, so `String(v)` of a fractional stored amount is not modelled.
- SearchSelect.IdText: numeric ids are integers; `String` of a fractional id is not modelled.
- ProductAdd.SubmitAdd: a failure of the `Productos` insert itself is not modelled. Only the upload error leads to `SaveFailed`, and the `Detalle_Productos` insert result is ignored, as in the source.
- ProductEdit.SubmitEdit: the relation step is stated separately by `ProductEdit.RelationDecision`, because it depends on the database answer for the existing relation.

## Findings

| source | as written | input that shows it | evidently intended | confidence | as-written member | corrected member |
|---|---|---|---|---|---|---|
| backEnd/bcvApi/server.js:59 | the route handler is `async (res) => …`. Express passes the request first, so `res` is the request object: `res.json` throws, and in the `catch` `res.status(500)` throws again. Under Express 4, which this row assumes because the repository pins no version, the rejected promise is not caught and the request is never answered; on Node 15 and later an unhandled rejection also ends the process by default, so the server goes down. Express 5 would answer it with its default 500 page | any `GET /api/bcv`, for example one where the BCV page answers 200 | `async (req, res) => …`: 200 with the success body, or 500 with the error body | high, not executed | BcvExpress.AsWrittenNeverAnswers | BcvExpress.HandleIntended |
