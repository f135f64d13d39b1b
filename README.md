# Neumáticos Express storefront: page logic in Dafny

This project models the logic of the tire storefront's React pages and widgets.
JSX, styling and routing are not modelled.

- **Quote request page.** The customer reviews the quote, fills in a contact form and reaches a confirmation. The model covers:
  - the three-step flow and its guard for an empty quote;
  - the contact-form validation, with its blank checks and its two regular expressions.
- **Pagination component.** It computes the sliding window of page numbers with the `1`/last anchors and `'...'` markers, and the Previous/Next buttons.
- **Quantity input.** It reads typed text the way base-10 `parseInt` does, then clamps it into `[min, max]`. It also disables its `-`/`+` buttons at the bounds.
- **Product detail page.** The model covers:
  - the quantity stepper, floored at 1;
  - the first-match product lookup and the review filter;
  - the integer star histogram;
  - the "first three reviews / N more" rule;
  - the gallery list;
  - the rewriting of camelCase specification keys into labels.
- **Review stars.** A rating is split into full, half and empty stars.

Component state that is updated in place is modelled as a class with `modifies` clauses. The product page and the quote page each become a class. Computations that build a list or a map step by step become methods, proved against a specification:
- `getPageNumbers` and its `for` loop, a loop proved against `PageNumbers`;
- the `forEach` over the reviews, a loop proved against `CountRating`;
- `validateForm`, straight-line code proved against `IsErrorMapFor`;
- the quantity field's change handler, straight-line code proved against `ClampedValue`.

The rest is functions and lemmas.

The quote store (`useQuote`: `addItem`, `removeItem`, `updateItemQuantity`, `clearQuote`, `totalItems`) is not modelled. The pages receive `totalItems` as an input. Every call they make into the store is appended to a `quoteCalls` log (`Types.QuoteCall`).

The two regular expressions are written out as predicates with their matching semantics (`EmailPattern`, `PhonePattern`). Each also has an executable matcher (`EmailMatches`, `PhoneMatches`), and a lemma proves the two equal. `trim()`, `parseInt` and `\s` share one white-space predicate, `JsText.IsWs`. It holds the ECMAScript WhiteSpace and LineTerminator code points.

The product page behaves as follows when the route id changes to an id with no product. The timer callback only sets the product when one is found, and the effect does not reset it. So the previous product, image and reviews stay on screen rather than the not-found message. `ProductDetail.ProductDetailPage.FinishLoading` models this as written.

## Model

| member | source | states |
|---|---|---|
| JsText.Trim | pages/QuoteRequestPage.tsx:33 | `trim()` keeps a contiguous part of the string and removes only white space before and after it; what it keeps neither starts nor ends with white space |
| JsText.TrimKeepsMiddle | pages/QuoteRequestPage.tsx:33 | trimming the start, then the end, keeps a slice with only white space around it and none at its ends |
| JsText.TrimEmptyIffBlank | pages/QuoteRequestPage.tsx:33 | `!s.trim()` holds exactly when every character of `s` is white space |
| JsText.TrimStartSkipsWs | components/QuantityInput.tsx:17 | skipping leading white space ignores any white-space prefix |
| JsText.ShowNat | pages/ProductDetailPage.tsx:164 | at least one digit, all digits; a leading `0` only for the number 0, as the single digit "0" |
| JsText.ShowInt | pages/ProductDetailPage.tsx:164 | canonical decimal text: a `-` exactly for a negative number, then digits with no leading zero (unless the number is 0) whose value is the number's magnitude |
| JsText.DigitsValueOfShowNat | pages/ProductDetailPage.tsx:164 | the decimal digits written for a number read back as that number |
| ContactValidation.EmailMatchesIffPattern | pages/QuoteRequestPage.tsx:36 | the executable email test accepts a string iff some substring is non-space+, `@`, non-space+, `.`, non-space+ |
| ContactValidation.PhoneMatchesIffPattern | pages/QuoteRequestPage.tsx:41 | the executable phone test accepts iff the whole string is an optional `+` then 7–20 digits, white space or `-` |
| ContactValidation.TestEmail | pages/QuoteRequestPage.tsx:36 | the email regular expression's `test` answers exactly `EmailPattern` |
| ContactValidation.TestPhone | pages/QuoteRequestPage.tsx:41 | the phone regular expression's `test` answers exactly `PhonePattern` |
| ContactValidation.CollectErrors | pages/QuoteRequestPage.tsx:31-46 | every field is checked independently and every failure recorded with its error; the map is empty iff the form is valid |
| ContactValidation.CheckFullName | pages/QuoteRequestPage.tsx:33 | the name fails, as required, exactly when it is blank |
| ContactValidation.CheckEmail | pages/QuoteRequestPage.tsx:34-38 | the email fails exactly when it is blank (required) or does not match the email pattern (malformed) |
| ContactValidation.CheckPhone | pages/QuoteRequestPage.tsx:39-43 | the phone fails exactly when it is blank (required) or does not match the phone pattern (malformed) |
| ContactValidation.ErrorMapFromFields | pages/QuoteRequestPage.tsx:33-43 | entering each field's own outcome, with the address left unchecked, gives exactly the specified error map |
| ContactValidation.ErrorMapEmptyIffValid | pages/QuoteRequestPage.tsx:45 | the returned `Object.keys(errors).length === 0` is true exactly when no field fails |
| ContactValidation.ValidIff | pages/QuoteRequestPage.tsx:31-46 | the form is valid iff name, email and phone are non-blank and email and phone match their patterns |
| ContactValidation.ErrorMapUnique | pages/QuoteRequestPage.tsx:32-43 | the error map is determined by the details |
| ContactValidation.AddressNeverChecked | pages/QuoteRequestPage.tsx:31-46 | the address never carries an error; only name, email and phone can |
| ContactValidation.EmailExamples | pages/QuoteRequestPage.tsx:34-38 | "" is required, "a@b" is malformed, "a@b.c" passes |
| ContactValidation.PhoneExamples | pages/QuoteRequestPage.tsx:39-43 | "12" is malformed, "+1 234-567-8901" passes |
| ContactValidation.FullNameExamples | pages/QuoteRequestPage.tsx:33 | a blank name is required, " Ana " passes |
| QuoteRequest.ScreenFor | pages/QuoteRequestPage.tsx:63-120 | confirmation wins even with an empty quote; otherwise zero items shows the empty state whatever the step; else the step picks review or contact |
| QuoteRequest.WithField | pages/QuoteRequestPage.tsx:25 | the spread replaces the named field and keeps the other three |
| QuoteRequest.ConfirmationIsFinal | pages/QuoteRequestPage.tsx:63-89 | under the allowed step changes, no step follows confirmation but confirmation |
| QuoteRequest.ConfirmationOnlyFromContact | pages/QuoteRequestPage.tsx:48-57 | any run that reaches confirmation enters it directly from the contact step |
| QuoteRequest.QuoteRequestPage.constructor | pages/QuoteRequestPage.tsx:13-21 | starts at review with an empty form, no errors and no store calls |
| QuoteRequest.QuoteRequestPage.InputChange | pages/QuoteRequestPage.tsx:23-29 | only the edited field's value changes and only its error is cleared; other values and errors are unchanged |
| QuoteRequest.QuoteRequestPage.ValidateForm | pages/QuoteRequestPage.tsx:31-46 | the errors become exactly the error map of the details; returns true iff it is empty iff the form is valid |
| QuoteRequest.QuoteRequestPage.SubmitRequest | pages/QuoteRequestPage.tsx:48-57 | moves only from contact to confirmation and only when valid; otherwise the step is kept; the quote is never cleared |
| QuoteRequest.QuoteRequestPage.ContinueToContact | pages/QuoteRequestPage.tsx:212 | review moves to contact |
| QuoteRequest.QuoteRequestPage.BackToReview | pages/QuoteRequestPage.tsx:237 | contact moves back to review |
| QuoteRequest.QuoteRequestPage.FollowConfirmationLink | pages/QuoteRequestPage.tsx:80-83 | the confirmation's links are the only place the quote is cleared |
| QuoteRequest.QuoteRequestPage.DecreaseItem | pages/QuoteRequestPage.tsx:134 | asks the store for quantity − 1, and nothing when the button is disabled (quantity ≤ 1) |
| QuoteRequest.QuoteRequestPage.IncreaseItem | pages/QuoteRequestPage.tsx:135 | asks the store for quantity + 1, and nothing when the button is disabled (quantity ≥ 99) |
| QuoteRequest.QuoteRequestPage.TypeItemQuantity | pages/QuoteRequestPage.tsx:136 | the store is asked for exactly the field's clamped value of the typed text, which lies between 1 and 99 |
| QuoteRequest.QuoteRequestPage.RemoveLineItem | pages/QuoteRequestPage.tsx:140 | asks the store to remove the item |
| Pagination.PageRun | components/Pagination.tsx:36-38 | pages lo..hi, each at its offset, and nothing else |
| Pagination.Window | components/Pagination.tsx:22-27 | for maxVisiblePages ≥ 1 below totalPages: 1 ≤ start ≤ end ≤ totalPages, exactly maxVisiblePages pages, holding any current page in range |
| Pagination.PageNumbers | components/Pagination.tsx:15-48 | every listed page exists; with at least one page the list starts at page 1 and ends at the last page |
| Pagination.GetPageNumbers | components/Pagination.tsx:15-48 | the pushes build exactly the specified list |
| Pagination.PushPages | components/Pagination.tsx:36-38 | the loop appends pages lo..hi |
| Pagination.AllPagesWhenFew | components/Pagination.tsx:17-20 | with totalPages ≤ maxVisiblePages the list is exactly 1..totalPages with no marker |
| Pagination.WindowedShape | components/Pagination.tsx:22-45 | windowed list: starts at 1, ends at totalPages, well spaced, holds exactly the anchors and the window; marker before/after the window iff start > 2 / end < totalPages − 1; at most maxVisiblePages + 4 entries |
| Pagination.AnchoredList | components/Pagination.tsx:29-45 | the same facts for any window inside the pages, with the exact entry count |
| Pagination.AnchoredListEnds | components/Pagination.tsx:29-45 | the list starts at page 1, ends at the last page, and counts window plus anchors plus markers |
| Pagination.AnchoredListSpaced | components/Pagination.tsx:29-45 | adjacent pages are consecutive and each marker sits between pages with a gap |
| Pagination.AnchoredListMembers | components/Pagination.tsx:29-45 | a page appears iff it is 1, the last page or inside the window |
| Pagination.MarkerBeforeWindow | components/Pagination.tsx:29-34 | the entry before the window is a marker iff the window starts after page 2 |
| Pagination.MarkerAfterWindow | components/Pagination.tsx:40-45 | the entry after the window is a marker iff it ends before the last page but one |
| Pagination.WellSpacedIncreasing | components/Pagination.tsx:29-45 | page numbers strictly increase, so no page is listed twice |
| Pagination.CurrentPageShown | components/Pagination.tsx:15-48 | an existing current page always has its button |
| Pagination.DefaultListAtMostNine | components/Pagination.tsx:12 | with the default of 5 visible pages the list has at most 9 entries |
| Pagination.PreviousRequest | components/Pagination.tsx:55-56 | Previous is disabled exactly on page 1, and otherwise asks for the page before the current one |
| Pagination.NextRequest | components/Pagination.tsx:84-85 | Next is disabled exactly on the last page, and otherwise asks for the page after the current one |
| Pagination.NavigationStaysInRange | components/Pagination.tsx:54-85 | Previous disabled iff on page 1, Next iff on the last; enabled buttons request an existing page |
| Pagination.Render | components/Pagination.tsx:12-90 | nothing is rendered iff totalPages ≤ 1; otherwise the list between Previous and Next |
| QuantityInput.ParseInt | components/QuantityInput.tsx:17 | an all-white-space text is NaN; a text starting with a digit reads as a number ≥ 0 |
| QuantityInput.ReadSigned | components/QuantityInput.tsx:17 | a number is read iff a digit follows the optional sign; a `-` gives a value ≤ 0, otherwise ≥ 0 |
| QuantityInput.ReadSignedNumber | components/QuantityInput.tsx:17 | a sign, digits and a non-digit tail read as the signed digits |
| QuantityInput.ParseIntReadsNumber | components/QuantityInput.tsx:17 | white space, an optional sign, the longest digit run; the rest is ignored ("12abc" → 12) |
| QuantityInput.ParseIntNaN | components/QuantityInput.tsx:17-18 | text with no digit right after the leading white space and the optional sign is NaN, white space after a sign included ("+ 5") |
| QuantityInput.ParseIntShowInt | components/QuantityInput.tsx:17 | parsing a number's decimal text gives the number back |
| QuantityInput.ClampedValue | components/QuantityInput.tsx:17-20 | in [min, max] when min ≤ max; NaN → min; in range kept; below → min; above → max; min > max → max |
| QuantityInput.TypedNumberClamped | components/QuantityInput.tsx:17-20 | typing the decimal text of any integer sends it clamped into 1..99 |
| QuantityInput.HandleInputChange | components/QuantityInput.tsx:15-23 | onChange is called iff it is supplied, and with exactly `ClampedValue` of the text |
| QuantityInput.EnabledButtonsKeepRange | components/QuantityInput.tsx:29-46 | decrease disabled iff quantity ≤ min, increase iff ≥ max; an enabled step stays in range |
| ReviewStars.RemOne | components/ReviewStars.tsx:14 | `rating % 1` is zero exactly for whole ratings |
| ReviewStars.SplitStars | components/ReviewStars.tsx:12-15 | full = floor(rating); half iff rating is not whole; full + half + empty = maxStars |
| ReviewStars.Icons | components/ReviewStars.tsx:19-25 | throws RangeError iff a count is negative; else `full` filled icons then `empty` empty ones |
| ReviewStars.Render | components/ReviewStars.tsx:12-25 | when it renders: maxStars icons for a whole rating, one fewer for a fractional one; the first floor(rating) are filled |
| ReviewStars.RendersIffInRange | components/ReviewStars.tsx:15-23 | the row renders iff 0 ≤ rating ≤ maxStars |
| ReviewStars.IconsDrawn | components/ReviewStars.tsx:19-25 | maxStars icons for a whole rating, maxStars − 1 for a fractional one; filled first, floor(rating) of them |
| ReviewStars.StarExamples | components/ReviewStars.tsx:12-15 | 4.5 → 4 full, half, 0 empty; 3 → 3 full, 2 empty; 6 throws |
| ProductDetail.DecreasedQuantity | pages/ProductDetailPage.tsx:130 | `-` never gives less than 1: from 2 or more it takes one off, otherwise it gives 1 |
| ProductDetail.IncreasedQuantity | pages/ProductDetailPage.tsx:132 | `+` always raises the quantity, and `-` takes it back from 1 or more |
| ProductDetail.QuantityStaysPositive | pages/ProductDetailPage.tsx:130-132 | starting at 1 or more, no series of clicks takes the quantity below 1 |
| ProductDetail.PlusClicksAdd | pages/ProductDetailPage.tsx:132 | n clicks on `+` add n: there is no ceiling |
| ProductDetail.MinusUndoesPlus | pages/ProductDetailPage.tsx:130-132 | `-` undoes `+`, and leaves the quantity unchanged only at 1 |
| ProductDetail.FindProduct | pages/ProductDetailPage.tsx:25 | none iff no product has the id; otherwise a catalog product with that id |
| ProductDetail.FindProductFirst | pages/ProductDetailPage.tsx:25 | the product found is the first with the id |
| ProductDetail.ReviewsFor | pages/ProductDetailPage.tsx:29 | keeps exactly the reviews of that product id |
| ProductDetail.ReviewsForAppend | pages/ProductDetailPage.tsx:29 | filtering distributes over concatenation, so order is kept |
| ProductDetail.RatingDistribution | pages/ProductDetailPage.tsx:63-66 | throws iff some rating is not 1..5; else keys 1..5, each counting the reviews with that rating |
| ProductDetail.CountsSumToLength | pages/ProductDetailPage.tsx:63-66 | when every rating is 1..5 the five counts add up to the number of reviews |
| ProductDetail.ShownReviews | pages/ProductDetailPage.tsx:198 | the first min(3, n) reviews, in order |
| ProductDetail.MoreReviews | pages/ProductDetailPage.tsx:209-211 | the button is shown iff there are more than 3 reviews, with the count of the hidden ones (at least 1) |
| ProductDetail.ShownAndMoreCoverAll | pages/ProductDetailPage.tsx:209-211 | "load more" appears iff reviews are hidden, showing how many; shown + hidden = all |
| ProductDetail.AllImages | pages/ProductDetailPage.tsx:59 | the main image first, then exactly the extra images; only the main image when there are none |
| ProductDetail.AllImagesShape | pages/ProductDetailPage.tsx:59 | main image first, then the extra images in order (length 1 + extras); thumbnails iff there are extras |
| ProductDetail.SpaceBeforeCapitals | pages/ProductDetailPage.tsx:160 | never shortens the key and never starts with a capital |
| ProductDetail.UpperFirst | pages/ProductDetailPage.tsx:160 | same length and same tail; a lower-case first letter becomes its own upper case, any other first character is left alone |
| ProductDetail.SpecLabel | pages/ProductDetailPage.tsx:160 | never shorter than the key; a lower-case key starts with a capital, and a key that starts with a capital gets a leading space |
| ProductDetail.SpacesRemovable | pages/ProductDetailPage.tsx:160 | dropping each space before a capital gives back the key |
| ProductDetail.SpaceBeforeCapitalsAppend | pages/ProductDetailPage.tsx:160 | spaces are inserted character by character |
| ProductDetail.NoCapitalsUnchanged | pages/ProductDetailPage.tsx:160 | a key without capitals keeps its spelling |
| ProductDetail.TwoWordLabel | pages/ProductDetailPage.tsx:160 | a two-word camelCase key becomes two words, the first capitalised |
| ProductDetail.LabelRoundTrip | pages/ProductDetailPage.tsx:160 | a camelCase key can be read back from its label |
| ProductDetail.LoadIndexLabel | pages/ProductDetailPage.tsx:160 | "loadIndex" → "Load Index" |
| ProductDetail.RunFlatLabel | pages/ProductDetailPage.tsx:160 | "runFlat" → "Run Flat" |
| ProductDetail.SizeLabel | pages/ProductDetailPage.tsx:160 | "size" → "Size" |
| ProductDetail.ValueText | pages/ProductDetailPage.tsx:164 | text as is; `true`/`false` as "Sí"/"No"; a number is written as its canonical decimal text (sign only when negative, no leading zero, value equal to the number), which reads back as the number |
| ProductDetail.SpecRows | pages/ProductDetailPage.tsx:158-164 | a row appears iff some entry with a value (neither undefined nor null) yields it; never more rows than entries |
| ProductDetail.SpecRowsAppend | pages/ProductDetailPage.tsx:158-164 | the table is built entry by entry in the entries' order |
| ProductDetail.SpecRowsOne | pages/ProductDetailPage.tsx:159-164 | an entry with a value gives exactly its label and text; one without gives no row |
| ProductDetail.ProductDetailPage.constructor | pages/ProductDetailPage.tsx:14-18 | loading, no product or reviews, quantity 1 |
| ProductDetail.ProductDetailPage.StartLoading | pages/ProductDetailPage.tsx:21-22 | a new route id sets loading and resets nothing else |
| ProductDetail.ProductDetailPage.FinishLoading | pages/ProductDetailPage.tsx:24-33 | a found product sets product, main image and its reviews; otherwise all three are kept; loading ends |
| ProductDetail.ProductDetailPage.DecreaseQuantity | pages/ProductDetailPage.tsx:130 | quantity becomes max(1, q − 1), keeping it ≥ 1 |
| ProductDetail.ProductDetailPage.IncreaseQuantity | pages/ProductDetailPage.tsx:132 | quantity becomes q + 1 |
| ProductDetail.ProductDetailPage.SelectImage | pages/ProductDetailPage.tsx:97 | a thumbnail selects one of the product's own images |
| ProductDetail.ProductDetailPage.AddToQuote | pages/ProductDetailPage.tsx:36-41 | the product and current quantity go to the store, only when a product is loaded |
| ProductDetail.ProductDetailPage.View | pages/ProductDetailPage.tsx:43-66 | spinner iff loading; not found iff no product; the histogram throws iff a rating is not 1..5; else gallery, spec rows, histogram, first reviews and "more" |

## Left out

- The quote store (`hooks/useQuote`): its operations are recorded as calls, and `totalItems` is an input. Nothing is assumed about what the store does with a call.
- Floating-point display is left out. This covers `averageRating` and the stars drawn for it, the histogram percentages, `price * quantity`, and `subtotal.toFixed(2)`. JavaScript numbers are modelled as `int` where the page treats them as counts, and ratings as `real`.
- Timers, I/O, routing and JSX are left out:
  - The `setTimeout` delay is modelled by calling `FinishLoading` at some later point.
  - The `console.log` of the submission is not modelled.
  - `Link`/`useNavigate` navigation and unmounting are not modelled.
  - Markup, CSS classes and `toLocaleDateString` are not modelled.
  - The breadcrumbs are not modelled.
- QuantityInput.ParseInt: reads unbounded integers. Double-precision rounding of very long digit strings and the value `-0` are not modelled.
- QuantityInput.HandleInputChange: treats the typed text as an arbitrary string. The browser's own clean-up of a `type="number"` field's value is not modelled.
- ProductDetail.UpperFirst: upper-cases ASCII letters only. Full Unicode `toUpperCase`, which can also lengthen a string, is not modelled.
- Strings are sequences of Unicode scalar values, not UTF-16 code units. Surrogate pairs are not modelled.
- ProductDetail.ValueText: writes numbers in specification entries as integers only. Fractional `toString()` output and the exponent form that `toString()` uses from `1e21` upwards are not modelled.
- ProductDetail.SpecRows: takes the entries as a sequence in the record's key order. The JavaScript rules for property order are not modelled.
- ProductDetail.ProductDetailPage.View: renders the histogram as a map over stars 1..5. The descending display order (`.reverse()`) and the per-review stars are not modelled.
- ProductDetail.ProductDetailPage.View: covers only the throw from the histogram. The star row for `averageRating` can also throw a RangeError (`ReviewStars.Render` gives it for a rating outside 0..5). This happens when there are no reviews and `product.rating` lies outside 0..5. It is not part of the view, because the average is floating point.
- ReviewStars.SplitStars: takes `maxStars` as an integer and `rating` as a finite number. NaN, infinities and fractional `maxStars` are not modelled.
- QuoteRequest.QuoteRequestPage.InputChange: removes a cleared error from the map. The page sets it to `undefined` instead, and the two render the same.
- QuoteRequest.QuoteRequestPage: each event sees the state the previous one left. React's batching of state updates is not modelled.
