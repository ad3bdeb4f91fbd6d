# VentasBronca storefront logic in Dafny

VentasBronca is a small Chilean web shop. Its pages run JavaScript. This
project models the logic behind those pages, and proves what it promises:

- **Shopping cart** (`src/js/carrito.js`): modules `CartModel` and `Cart`.
  - Adding a product merges it into an existing line with the same id, or appends a new line.
  - Changing a quantity can ask the customer to confirm a removal. Every `confirm()` dialog is one answer from a scripted sequence.
  - Removing a line also needs a confirmation.
  - The badge, the summary totals and the "empty" panel are recomputed on every update. The cart is saved to an abstract store whose write may fail.
  - The quantity box is clamped to 1-10. The add button rejects quantities outside that range.
  - Checkout aggregates order lines and the total into a hand-off value, and leaves the cart unchanged.
- **Shared validators** (`Utils` in `src/js/main.js`, module `Utils`):
  - the e-mail regular expression `^[^\s@]+@[^\s@]+\.[^\s@]+$`;
  - the Chilean phone regular expression `^(\+?56)?[2-9]\d{8}$`, applied after removing whitespace.

  Both are modelled as a scanning function. Each is proved equivalent to a ghost predicate that describes how the expression decomposes the input.
- **Form validation** (`FormValidator` in `src/js/main.js`, module `Forms`):
  - the per-type rule of `validateField`;
  - `validateForm`, which validates the required fields in a loop;
  - `handleSubmit`, which either accepts the form or shows the general error.
- **Product search** (`SearchSystem` in `src/js/main.js`, module `Search`):
  - loading one product per titled card;
  - the lower-cased search text;
  - the minimum query length of two;
  - the results panel, which counts the results, lists the first five and states how many more there are;
  - highlighting or hiding each card;
  - clearing the search.
- **Registration page** (`src/js/registro-chile.js`, module `Registro`):
  - the region → comuna table and how the region select is filled;
  - repopulating the comuna select when the region changes;
  - on submit: the required-field marks, matching e-mail addresses, matching passwords of at least 8 characters, and an optional phone number.

  A valid submission resets the form, clears every mark and disables the comuna select.
- **Login page** (`src/js/login.js`, module `Login`): a trimmed e-mail address that must match `^\S+@\S+\.\S+$`, and a trimmed, non-empty password. Both checks always run. The form is reset only when both pass.
- **User administration** (`src/js/admin.js`, module `Admin`): a new table row holding the five trimmed field values, appended only when none is empty.

Module `Js` holds the JavaScript built-ins these depend on:

- the whitespace set of `\s` and `String.prototype.trim`;
- `toLowerCase` and `includes`;
- `parseInt` with no radix, including the `0x` prefix;
- form controls and `form.reset()`.

Pure code (the regular expressions, `filter`, the region lookup) is written as functions. Code that mutates state is written as classes whose methods carry `modifies` clauses and state the new state. This covers the global cart array, the validator's marks, the search's product list and card styling, and each form's controls and marks. Each such method is proved against specification functions, and the lemmas relate those functions to one another.

Behaviour of the code that the model reproduces deliberately:

- In `modifyQuantity`, a quantity that drops to zero or below triggers two confirmations: one there, and another inside `removeFromCart`. If the customer accepts the first and declines the second, the line stays in the cart with a quantity of zero or less (`Cart.ModifySecondDeclineKeepsLine`).
- `validateField` checks e-mail, phone and number fields only when they are non-empty. So a required but empty e-mail or phone field passes (`Forms.EmptyRequiredEmailPasses`).
- The search text of a card without a description contains the word `undefined`, because the code builds it with a template literal (`Search.MissingDescriptionMatchesUndefined`).
- The registration phone check trims the number but does not remove inner spaces. The shared `Utils` check removes all whitespace. So `+56 912345678` is accepted by `Utils` and refused at registration (`Registro.SpacedPhoneRejectedAtRegistration`).
- The login e-mail pattern accepts a second `@` that `Utils.isValidEmail` refuses (`Login.LoginAcceptsTwoAts`).
- At registration, the e-mail-confirmation check runs after the required-field loop and overwrites that field's mark (`Registro.ConfirmationMarkOverridesRequired`).
- At load, `JSON.parse` of the stored cart has no `try`. Malformed stored data is therefore not swallowed. The model gives the stored value as an already decoded `Option`, and makes no claim about malformed data.

## Model

| member | source | states |
|---|---|---|
| Js.Trim | src/js/main.js:142 | the trimmed string is no longer than the input and neither starts nor ends with whitespace |
| Js.TrimPadded | src/js/main.js:142 | the input is leading whitespace, then the trimmed string, then trailing whitespace |
| Js.TrimEmptyIffAllSpaces | src/js/login.js:18-19 | trimming gives the empty string exactly when the input is all whitespace |
| Js.TrimIdempotent | src/js/main.js:142 | trimming twice is the same as trimming once |
| Js.TrimStart | src/js/carrito.js:167 | the leading-whitespace strip that parseInt performs leaves no leading whitespace |
| Js.TrimEnd | src/js/main.js:142 | stripping trailing whitespace never lengthens the string and leaves no whitespace at its end |
| Js.TrimStartSuffix | src/js/carrito.js:167 | what parseInt strips is a whitespace prefix, and the rest is a suffix of the input |
| Js.TrimEndPrefix | src/js/main.js:142 | trimming the end removes a whitespace suffix and keeps a prefix |
| Js.RemoveSpaces | src/js/main.js:47 | `replace(/\s+/g, '')` leaves no whitespace, and leaves whitespace-free input unchanged |
| Js.RemoveSpacesAppend | src/js/main.js:47 | removing whitespace distributes over concatenation |
| Js.ToLower | src/js/main.js:328 | lower-casing keeps the length and maps each character independently |
| Js.ToLowerAppend | src/js/main.js:381 | lower-casing distributes over concatenation |
| Js.Includes | src/js/main.js:389 | `includes` holds exactly when the query occurs at some index |
| Js.ParseMagnitude | src/js/main.js:167-169 | parseInt's digit run is empty exactly when the result is NaN; `0x` switches to hexadecimal |
| Js.ParseSigned | src/js/carrito.js:167 | after one optional sign, NaN exactly when the unsigned part has no digit; otherwise the value is that part's magnitude, negated exactly after '-' and kept after '+' or no sign |
| Js.ParseInt | src/js/carrito.js:167 | parseInt is ParseSigned after the leading whitespace; Js.LeadingSpacesIgnored and Js.ParseDecimalString carry its promises |
| Js.ParseAttribute | src/js/main.js:167-168 | a missing attribute parses to NaN |
| Js.LeadingSpacesIgnored | src/js/carrito.js:221 | parseInt ignores leading whitespace |
| Js.ParseDecimalString | src/js/carrito.js:177 | parseInt of the decimal rendering of any integer gives that integer back |
| Js.NatStringValue | src/js/carrito.js:177 | the decimal digits of a number denote that number |
| Js.DecimalString | src/js/carrito.js:170 | the number written to an input's value; Js.ParseDecimalString proves parseInt reads it back |
| Js.Reset | src/js/login.js:53 | `form.reset()` gives a control its default value and keeps its name and required flag |
| Utils.IndexOf | src/js/main.js:36 | the first index of a character, or proof of its absence |
| Utils.IsValidEmail | src/js/main.js:35-38 | the scan accepts exactly the strings the e-mail regular expression matches |
| Utils.EmailCheckSound | src/js/main.js:36 | the first '@' splits an e-mail exactly when the pattern matches |
| Utils.EmailCheckSufficient | src/js/main.js:36 | one '@', a non-empty local part and an inner dot in the domain give a match |
| Utils.EmailSplitNecessary | src/js/main.js:36 | every match has a single '@', no whitespace and an inner dot after the '@' |
| Utils.MatchesPhonePattern | src/js/main.js:46 | the scan accepts exactly the strings `^(\+?56)?[2-9]\d{8}$` matches |
| Utils.IsValidChileanPhone | src/js/main.js:45-48 | a phone is valid exactly when, with whitespace removed, it matches the pattern |
| Utils.ValidPhoneShape | src/js/main.js:46 | a valid phone has 9, 11 or 12 characters, and its last nine form a national number |
| Utils.PhoneSpacesIgnored | src/js/main.js:47 | inserting whitespace anywhere never changes the phone verdict |
| Utils.SpacedInternationalAccepted | src/js/main.js:45-48 | `+56`, whitespace, then a national number is accepted |
| CartModel.Accepted | src/js/carrito.js:124-128 | a product is refused exactly when its id, name or price is falsy; otherwise its fields become the line |
| CartModel.FindIndex | src/js/carrito.js:129 | `find` returns the first line with the id, or there is none |
| CartModel.Removed | src/js/carrito.js:157 | `filter` drops every line with the id and never grows the cart |
| CartModel.Added | src/js/carrito.js:129-136 | merge into the first line with the id, or append; its promises are CartModel.AddedMerges, AddedAppends, AddedKeepsIdsUnique, AddedTotals and AddedQuantityOf |
| CartModel.TotalQuantity | src/js/carrito.js:79 | updateCart's item count; CartModel.TotalsAppend, TotalsUpdate and RemovedTotalQuantity carry its promises |
| CartModel.TotalPrice | src/js/carrito.js:80 | updateCart's price total; CartModel.TotalsAppend, TotalsUpdate and CheckoutTotal carry its promises |
| CartModel.QuantityOf | src/js/carrito.js:78-79 | the units an id holds over all lines; CartModel.QuantityOfAppend, QuantityOfUnique and AddAllInvariant carry its promises |
| CartModel.TotalsAppend | src/js/carrito.js:78-80 | the item and price totals add up over concatenation |
| CartModel.QuantityOfAppend | src/js/carrito.js:78-79 | the units of an id add up over concatenation |
| CartModel.TotalsUpdate | src/js/carrito.js:143 | changing one line's quantity shifts the totals by the difference |
| CartModel.QuantityOfUpdate | src/js/carrito.js:143 | changing one line's quantity shifts only that id's units |
| CartModel.AddedMerges | src/js/carrito.js:129-132 | adding a known id raises that line's quantity and leaves the other lines alone |
| CartModel.AddedAppends | src/js/carrito.js:133-135 | adding a new id appends the product at the end |
| CartModel.AddedKeepsIdsUnique | src/js/carrito.js:129-136 | adding keeps the line ids unique |
| CartModel.AddedTotals | src/js/carrito.js:129-136 | adding raises the item count by the added quantity, and the price total by that quantity times the line's price |
| CartModel.AddedQuantityOf | src/js/carrito.js:129-136 | adding raises only the added id's units |
| CartModel.AddAllFromEmpty | src/js/carrito.js:124-138 | any sequence of adds to an empty cart gives unique ids and the summed units per id |
| CartModel.AddAllInvariant | src/js/carrito.js:124-138 | any sequence of adds keeps ids unique and adds its units to each id |
| CartModel.AddTwiceScenario | src/js/carrito.js:129-136 | adding the same product twice gives one line with the summed quantity |
| CartModel.RemovedAppend | src/js/carrito.js:157 | filtering distributes over concatenation |
| CartModel.RemovedAbsent | src/js/carrito.js:157 | filtering out an absent id changes nothing |
| CartModel.RemovedQuantityOf | src/js/carrito.js:157 | removal zeroes the removed id's units and keeps every other id's |
| CartModel.RemovedTotalQuantity | src/js/carrito.js:157 | removal lowers the item count by the removed id's units |
| CartModel.QuantityOfUnique | src/js/carrito.js:129 | with unique ids, an id's units are its own line's quantity |
| CartModel.QuantityOfAbsent | src/js/carrito.js:129 | an absent id has no units |
| CartModel.OrderLineOf | src/js/carrito.js:204 | an order line's subtotal is its unit price times its quantity |
| CartModel.OrderLines | src/js/carrito.js:203-210 | checkout lists one order line per cart line, in cart order |
| CartModel.CheckoutTotal | src/js/carrito.js:202-205 | the sum of the checkout subtotals is the cart's price total |
| Cart.EntryQuantity | src/js/carrito.js:167-172 | a falsy parse becomes 1; otherwise the quantity is accepted exactly when it lies in 1-10 |
| Cart.ClampedInput | src/js/carrito.js:219-225 | the quantity box is clamped to 1-10; in-range and unparsable input are kept |
| Cart.ClampedInputIdempotent | src/js/carrito.js:219-225 | clamping twice is the same as clamping once |
| Cart.ModifyOutcome | src/js/carrito.js:140-161 | modifyQuantity's decision with the double confirmation; Cart.ModifyUnknownIdIsNoop, ModifyPositive, ModifyDeclinedSetsOne, ModifyRemoves, ModifySecondDeclineKeepsLine and ModifyKeepsIdsUnique carry its promises |
| Cart.CartStore.Load | src/js/carrito.js:16 | the script's top level (this line and the updateCart at line 232): the cart starts from the stored lines or empty, is rendered and saved once, and keeps that save's notices |
| Cart.CartStore.PageReady | src/js/carrito.js:227-230 | the DOMContentLoaded handler re-renders and saves the unchanged cart once more |
| Cart.OpenPage | src/js/carrito.js:227-232 | a full page load renders and saves twice, and a failing storage reports twice |
| Cart.CartStore.SaveCart | src/js/carrito.js:32-39 | a save stores the cart, or keeps the old store and reports the failure |
| Cart.CartStore.UpdateCart | src/js/carrito.js:66-122 | the view shows the cart's totals; the empty branch leaves the summary texts as they were; the cart is saved |
| Cart.CartStore.Confirm | src/js/carrito.js:145 | a confirm dialog consumes one scripted answer; a missing answer counts as "cancel" |
| Cart.CartStore.AddToCart | src/js/carrito.js:124-138 | an incomplete product changes nothing; otherwise the cart becomes the merged or appended lines |
| Cart.CartStore.RemoveFromCart | src/js/carrito.js:154-161 | an unknown id changes nothing; a declined confirmation changes only the answers; an accepted one filters the id out |
| Cart.CartStore.ModifyQuantity | src/js/carrito.js:140-152 | the new cart, the answers used and the number of saves follow the modify outcome for the id and change |
| Cart.CartStore.Checkout | src/js/carrito.js:196-217 | an empty cart is refused; otherwise the hand-off carries the shop number, the order lines and the total |
| Cart.CartStore.OnAddClick | src/js/carrito.js:163-183 | an out-of-range quantity changes nothing; otherwise the parsed product goes through addToCart, with its merged or appended cart, one render and save, and its notices; the box goes back to 1 |
| Cart.CartStore.OnListClick | src/js/carrito.js:185-194 | a button without an id, another button or an unknown id changes nothing; a quantity button leaves the cart, answers, saves and rendering of the modify outcome; a delete button leaves what removeFromCart states for a declined or accepted confirmation |
| Cart.FindIndexIgnoresQuantity | src/js/carrito.js:141-143 | changing a quantity does not move any line |
| Cart.RemovedIgnoresQuantity | src/js/carrito.js:143-146 | removing after a quantity change gives what removing without it would |
| Cart.ModifyUnknownIdIsNoop | src/js/carrito.js:141-142 | modifying an id that is not in the cart changes nothing |
| Cart.ModifyPositive | src/js/carrito.js:143-151 | a positive new quantity is stored on that line only, without asking |
| Cart.ModifyDeclinedSetsOne | src/js/carrito.js:144-149 | declining the first confirmation sets the line's quantity to 1 |
| Cart.ModifyRemoves | src/js/carrito.js:144-146 | confirming twice removes the line and lowers the item count by its units |
| Cart.ModifySecondDeclineKeepsLine | src/js/carrito.js:144-146 | confirming once and then declining keeps the line with a quantity of zero or less |
| Cart.RemovedKeepsIdsUnique | src/js/carrito.js:157 | filtering keeps ids unique and invents no line |
| Cart.ModifyKeepsIdsUnique | src/js/carrito.js:140-152 | modifying a quantity keeps ids unique |
| Forms.EmailVerdict | src/js/main.js:152-157 | an e-mail field fails exactly when it is non-empty and does not match the pattern |
| Forms.PhoneVerdict | src/js/main.js:159-164 | a tel field fails exactly when it is non-empty and not a valid Chilean phone |
| Forms.NumberVerdict | src/js/main.js:166-175 | an unparsable value passes; otherwise it fails exactly when it is below min or above max, NaN limits never failing |
| Forms.TextVerdict | src/js/main.js:177-192 | required-and-empty comes first, then minlength, then maxlength; the value passes exactly when none applies |
| Forms.FieldVerdict | src/js/main.js:151-193 | validateField's switch on the trimmed value, dispatching to EmailVerdict, PhoneVerdict, NumberVerdict and TextVerdict; Forms.EmptyRequiredEmailPasses, UnparsableNumberPasses and RequiredComesFirst carry its promises |
| Forms.FormMarksPrefix | src/js/main.js:242-246 | after the loop, each required field carries its own verdict and every other mark is unchanged |
| Forms.RequiredPassStep | src/js/main.js:242-246 | all-required-pass over one more field adds exactly that field's verdict |
| Forms.FormValidator.constructor | src/js/main.js:94-98 | a new validator holds the form's fields and has no marks and no general error |
| Forms.FormValidator.ValidateField | src/js/main.js:141-201 | the field is valid exactly when its verdict is empty; only that field's mark is replaced |
| Forms.FormValidator.CheckRules | src/js/main.js:141-193 | the switch, setting flags step by step, computes exactly FieldVerdict of the field |
| Forms.FormValidator.CheckText | src/js/main.js:177-192 | the text branch's if/else-if chain parses minlength and maxlength and computes exactly TextVerdict |
| Forms.FormValidator.ValidateForm | src/js/main.js:238-249 | the form is valid exactly when every required field passes; each required field is re-marked |
| Forms.FormValidator.HandleSubmit | src/js/main.js:255-263 | a valid form is submitted; an invalid one shows the general error text |
| Forms.EmptyRequiredEmailPasses | src/js/main.js:152-164 | an empty or whitespace-only e-mail or tel field passes, required or not |
| Forms.UnparsableNumberPasses | src/js/main.js:169-171 | a number field whose value does not start with a digit or a sign passes |
| Forms.RequiredComesFirst | src/js/main.js:182-184 | a required, blank text field fails with "required" whatever its length limits |
| Forms.OptionalFieldsIgnored | src/js/main.js:239 | adding an optional field never changes whether the form validates |
| Search.ProductOf | src/js/main.js:316-329 | a card yields a product exactly when its trimmed title is non-empty, titled with it and pointing at the card |
| Search.SearchText | src/js/main.js:328 | title, description and SKU joined by spaces and lower-cased; Search.UndefinedInSearchText carries its promise for a missing part |
| Search.Catalog | src/js/main.js:312-332 | loading keeps at most one product per card, in increasing card order |
| Search.CatalogSound | src/js/main.js:315-331 | every loaded product is the one its card yields |
| Search.CatalogComplete | src/js/main.js:315-331 | a card is loaded exactly when it is titled |
| Search.CatalogLast | src/js/main.js:315-331 | loading one more card appends its product when it is titled |
| Search.Matching | src/js/main.js:388-390 | filtering never grows the product list |
| Search.MatchingMembers | src/js/main.js:388-390 | a product is a result exactly when it is loaded and matches |
| Search.MatchingLast | src/js/main.js:388-390 | filtering one more product appends it when it matches |
| Search.MatchingAppend | src/js/main.js:388-390 | filtering distributes over concatenation |
| Search.Query | src/js/main.js:381 | the query is no longer than the input, and empty exactly when the input is all whitespace |
| Search.LookAfter | src/js/main.js:454-469 | the look a card ends in after highlightProducts; Search.SearchLooks states when it is highlighted or hidden |
| Search.ResultsPanel | src/js/main.js:401-437 | no results shows the query; otherwise the count, the first min(count, 5) results in order, and the "Y N más" figure count − 5 exactly when there are more than five |
| Search.SearchSystem.constructor | src/js/main.js:292-307 | products are loaded only when the page has a search input; every card starts plain |
| Search.SearchSystem.LoadProducts | src/js/main.js:312-332 | the catalogue of the cards is pushed after the products already loaded |
| Search.SearchSystem.ClearSearch | src/js/main.js:496-506 | the box is emptied, the panel hidden and every card plain |
| Search.SearchSystem.HighlightProducts | src/js/main.js:454-471 | every card takes the look its product earns from the results |
| Search.SearchSystem.PerformSearch | src/js/main.js:380-394 | a query under two characters clears; otherwise the panel shows the matches and the cards are styled by them |
| Search.SearchLooks | src/js/main.js:462-469 | after a search, a card is highlighted exactly when it matches, and hidden exactly when it misses while something else matched |
| Search.LowerUndefined | src/js/main.js:328 | lower-casing leaves "undefined" unchanged |
| Search.UndefinedInSearchText | src/js/main.js:328 | a missing description puts "undefined" into the search text |
| Search.MissingDescriptionMatchesUndefined | src/js/main.js:317-328 | a titled card without a description matches the query "undefined" |
| Registro.ComunasIn | src/js/registro-chile.js:36 | the lookup finds a region's comunas, or the region is not in the table |
| Registro.NamedOptions | src/js/registro-chile.js:38-42 | one option per name, with the name as both value and text |
| Registro.Keys | src/js/registro-chile.js:25 | `Object.keys` lists the regions in table order |
| Registro.Find | src/js/registro-chile.js:65 | `form.name` finds the first control with that name, or there is none |
| Registro.SubmitMarks | src/js/registro-chile.js:56-89 | the submit leaves one invalid mark per control |
| Registro.EmailMismatch | src/js/registro-chile.js:65-67 | the trimmed e-mail and its confirmation differ |
| Registro.PasswordRejected | src/js/registro-chile.js:74-76 | the untrimmed password differs from its confirmation or is shorter than 8 characters |
| Registro.PhoneRejected | src/js/registro-chile.js:83-84 | the trimmed phone is non-empty and does not match the pattern, with inner whitespace kept |
| Registro.RegistrationAccepted | src/js/registro-chile.js:56-89 | no required control is empty and none of the three named checks fails; Registro.RegistroPage.Submit is valid exactly then |
| Registro.RegistroPage.constructor | src/js/registro-chile.js:10-17 | the page holds the region table and the form's controls, unmarked |
| Registro.RegistroPage.PopulateRegions | src/js/registro-chile.js:25-30 | one option per region is appended to the region select |
| Registro.RegistroPage.OnRegionChange | src/js/registro-chile.js:33-46 | the comuna select holds the placeholder plus the region's comunas, and is disabled exactly when the region is unknown |
| Registro.RegistroPage.Submit | src/js/registro-chile.js:52-124 | valid exactly when every check passes; a valid form is reset, unmarked and its comuna select disabled; otherwise only the marks change |
| Registro.RequiredChecks | src/js/registro-chile.js:56-63 | each required control with an empty value is marked; valid exactly when none is |
| Registro.NamedChecks | src/js/registro-chile.js:65-89 | the e-mail, password and phone checks overwrite the marks of their confirmation or phone controls |
| Registro.ResetAll | src/js/registro-chile.js:120 | `form.reset()` resets every control |
| Registro.FindAfterValueChange | src/js/registro-chile.js:34 | changing a control's value does not move any name |
| Registro.NamedControlsAfterValueChange | src/js/registro-chile.js:34 | the named controls survive a value change |
| Registro.FindAfterReset | src/js/registro-chile.js:120 | a reset does not move any name |
| Registro.NamedControlsAfterReset | src/js/registro-chile.js:120 | the named controls survive a reset |
| Registro.TableLookup | src/js/registro-chile.js:10-17 | every region in the table looks up its own comunas |
| Registro.LookupUniqueKeys | src/js/registro-chile.js:36 | with distinct region names, each region's lookup gives that region's comunas |
| Registro.SpacedPhoneRejectedAtRegistration | src/js/registro-chile.js:83-84 | a phone with an inner space is refused at registration yet accepted by the shared check |
| Registro.UnpaddedPhone | src/js/registro-chile.js:83 | trimming keeps a phone number's inner space |
| Registro.ConfirmationMarkOverridesRequired | src/js/registro-chile.js:56-72 | a blank required confirmation field ends unmarked when both e-mails are blank, and the form is still refused |
| Login.LastIndexOf | src/js/login.js:11 | the last index of a character, or proof of its absence |
| Login.IsLoginEmail | src/js/login.js:11 | the scan accepts exactly the strings `^\S+@\S+\.\S+$` matches |
| Login.LoginScanSound | src/js/login.js:11 | the first '@' and the last '.' decide the pattern |
| Login.LoginForm.constructor | src/js/login.js:5 | a new form holds its controls, unmarked |
| Login.LoginForm.Submit | src/js/login.js:6-55 | each field is marked exactly when its check fails; valid exactly when neither is; only a valid form is reset |
| Login.BlankPasswordRefused | src/js/login.js:18-19 | a whitespace-only password trims to empty and is refused |
| Login.LoginAcceptsTwoAts | src/js/login.js:11 | "a@b@c.d" passes the login pattern and fails `Utils.isValidEmail` |
| Admin.NewRow | src/js/admin.js:8-17 | a row exists exactly when all five trimmed values are non-empty, and holds them in form order |
| Admin.UserAdmin.constructor | src/js/admin.js:2-3 | the page holds the five controls and the existing rows |
| Admin.UserAdmin.Submit | src/js/admin.js:8-18 | a row is appended and the form reset exactly when every trimmed value is non-empty; otherwise nothing changes |
| Admin.AppendKeepsRows | src/js/admin.js:14-17 | appending keeps the earlier rows, and the new cells carry no surrounding whitespace |
| Admin.BlankFieldBlocks | src/js/admin.js:13 | a whitespace-only field blocks the append |

## Left out

- DOM rendering: the `innerHTML` templates of cart lines, result items, table cells and modals, and the notification elements. Rendering is modelled as abstract fields: counts, option lists, marks, card looks and the panel value.
- `formatCurrency` (`Intl.NumberFormat`) is locale formatting. Prices and totals stay integers.
- Search.SearchSystem.PerformSearch: treats the call to `Utils.formatCurrency` (main.js:420) as if it worked. `Utils` does not define that function, so for a non-empty result list the page code as written would throw before it shows the panel and highlights the cards.
- `localStorage` and JSON: the store is an abstract `Option` of decoded lines, and a failing write is a flag. Malformed stored data is not modelled.
- Timers, `Utils.debounce`, the notification timeouts, event-listener registration, `SmoothScroll`, `LazyImageLoader` and the `App` bootstrap are browser plumbing.
- `Utils.generateUniqueId` (clock and randomness), `Utils.sanitizeString` (DOM), `highlightText` (builds a regular expression from user input) and `scrollToProduct` (DOM geometry) are not part of this model.
- The WhatsApp URL and `window.open` are an external hand-off. Checkout returns the shop number, the order lines and the total as a value instead.
- The `CONFIG` object in main.js, including its `WHATSAPP_NUMBER`, is not read by the cart. The cart uses its own constants 1, 10 and `56974161396`.
- Js.LowerChar: lower-cases ASCII and Latin-1 letters only. Other scripts are not modelled.
- String lengths count characters, not UTF-16 code units, so characters outside the Basic Multilingual Plane would differ in `minlength`, `maxlength`, the password length and the search's two-character minimum (main.js:383): one such character is a query of length 2 in JavaScript, so the search runs where the model clears it.
- Arithmetic is on unbounded integers. JavaScript number precision beyond 2^53 and fractional prices are not modelled.
- Registro.ComunasIn: looks a region up only among the table's own keys. JavaScript's inherited object keys such as `toString` are not modelled.
- Forms.FieldError: the error message texts are not modelled, only the kind of error and its limits. The general error text is modelled.
- Js.Reset: a select control's default value is modelled as a field of the control, like an input's default value.
- Registro.Find: `form.name` is modelled as the first control with that name. When names repeat, the browser returns a RadioNodeList instead, and the region and comuna handlers find their selects by id (registro-chile.js:21-22), which the model takes to be the controls named region and comuna.
- Registro.RegistroPage.Submit: requires that the named controls (correo, confirmarCorreo, password, confirmarPassword, telefono, region, comuna) exist. The page code would throw without them.
- Search.SearchSystem.HighlightProducts: keeps one look per product. The page styles `card.closest('.col')`, so several cards sharing one column, or a card outside any column (which would throw), are not modelled. The same holds for Search.SearchSystem.ClearSearch.
- Cart.CartStore.OnListClick: the `data-change` attribute is the integer the rendered buttons carry (1 or -1). An absent or unparsable attribute is not modelled.
- Cart lines are values. The cart's line objects are never shared with other code, so aliasing of them is not modelled.
